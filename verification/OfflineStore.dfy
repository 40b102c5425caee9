/**
 * Traffic data per endpoint: collected online, dumped after every interval, and
 * reloaded offline.
 */
module OfflineStore {
  import opened Bytes
  import opened Containers
  import opened DumpText

  // ---------------------------------------------------------------- netmasks

  /** The table of netmasks. */
  function Mask(n: nat): bv32
    requires n <= 32
  {
    match n
    case 0 => 0x00000000
    case 1 => 0x80000000 case 2 => 0xC0000000 case 3 => 0xE0000000 case 4 => 0xF0000000
    case 5 => 0xF8000000 case 6 => 0xFC000000 case 7 => 0xFE000000 case 8 => 0xFF000000
    case 9 => 0xFF800000 case 10 => 0xFFC00000 case 11 => 0xFFE00000 case 12 => 0xFFF00000
    case 13 => 0xFFF80000 case 14 => 0xFFFC0000 case 15 => 0xFFFE0000 case 16 => 0xFFFF0000
    case 17 => 0xFFFF8000 case 18 => 0xFFFFC000 case 19 => 0xFFFFE000 case 20 => 0xFFFFF000
    case 21 => 0xFFFFF800 case 22 => 0xFFFFFC00 case 23 => 0xFFFFFE00 case 24 => 0xFFFFFF00
    case 25 => 0xFFFFFF80 case 26 => 0xFFFFFFC0 case 27 => 0xFFFFFFE0 case 28 => 0xFFFFFFF0
    case 29 => 0xFFFFFFF8 case 30 => 0xFFFFFFFC case 31 => 0xFFFFFFFE case 32 => 0xFFFFFFFF
  }

  /** Every entry of the table has one more leading bit than the one before. */
  lemma MaskGrows(n: nat)
    requires n < 32
    ensures Mask(0) == 0 && Mask(n + 1) == (Mask(n) >> 1) | 0x80000000
  {
    match n
    case 0 => case 1 => case 2 => case 3 => case 4 => case 5 => case 6 => case 7 =>
    case 8 => case 9 => case 10 => case 11 => case 12 => case 13 => case 14 => case 15 =>
    case 16 => case 17 => case 18 => case 19 => case 20 => case 21 => case 22 => case 23 =>
    case 24 => case 25 => case 26 => case 27 => case 28 => case 29 => case 30 => case 31 =>
  }

  /** remanent_mask: each octet is masked with its octet of the mask. */
  function Masked(ip: Ip, n: nat): Ip
    requires n <= 32
  {
    var m := Mask(n);
    Ip(ip.a & ((m >> 24) & 0xFF) as bv8, ip.b & ((m >> 16) & 0xFF) as bv8, ip.c & ((m >> 8) & 0xFF) as bv8,
       ip.d & (m & 0xFF) as bv8)
  }

  /** The address as the 32-bit word that the masks are for. */
  function Word(ip: Ip): bv32 {
    (ip.a as bv32 << 24) | (ip.b as bv32 << 16) | (ip.c as bv32 << 8) | ip.d as bv32
  }

  /** Masking octet by octet is masking the word. */
  lemma MaskedWord(ip: Ip, n: nat, m: bv32)
    requires n <= 32 && m == Mask(n)
    ensures Word(Masked(ip, n)) == Word(ip) & m
  {
    OctetsMasked(ip.a, ip.b, ip.c, ip.d, m);
  }

  lemma OctetsMasked(a: bv8, b: bv8, c: bv8, d: bv8, m: bv32)
    ensures ((a & ((m >> 24) & 0xFF) as bv8) as bv32 << 24) | ((b & ((m >> 16) & 0xFF) as bv8) as bv32 << 16)
            | ((c & ((m >> 8) & 0xFF) as bv8) as bv32 << 8) | (d & (m & 0xFF) as bv8) as bv32
            == ((a as bv32 << 24) | (b as bv32 << 16) | (c as bv32 << 8) | d as bv32) & m
  {
  }

  lemma WordIsAddress(ip: Ip, ip': Ip)
    ensures Word(ip) == Word(ip') <==> ip == ip'
  {
    WordOctets(ip.a, ip.b, ip.c, ip.d);
    WordOctets(ip'.a, ip'.b, ip'.c, ip'.d);
  }

  lemma WordOctets(a: bv8, b: bv8, c: bv8, d: bv8)
    ensures var w := (a as bv32 << 24) | (b as bv32 << 16) | (c as bv32 << 8) | d as bv32;
            && ((w >> 24) & 0xFF) as bv8 == a && ((w >> 16) & 0xFF) as bv8 == b
            && ((w >> 8) & 0xFF) as bv8 == c && (w & 0xFF) as bv8 == d
  {
  }

  lemma AndTwice(x: bv8, m: bv8)
    ensures x & m & m == x & m
  {
  }

  lemma MaskedTwice(ip: Ip, n: nat)
    requires n <= 32
    ensures Masked(Masked(ip, n), n) == Masked(ip, n)
  {
    var m := Mask(n);
    AndTwice(ip.a, ((m >> 24) & 0xFF) as bv8);
    AndTwice(ip.b, ((m >> 16) & 0xFF) as bv8);
    AndTwice(ip.c, ((m >> 8) & 0xFF) as bv8);
    AndTwice(ip.d, (m & 0xFF) as bv8);
  }

  // ---------------------------------------------------------------- filters and keys

  /** port and protocol may be the wildcard -1. */
  datatype FilterEndPoint = FilterEndPoint(ip: Ip, netmask: nat, port: int, protocol: int)

  datatype Config = Config(byIp: bool, byPort: bool, byProtocol: bool, netmask: nat,
                           filters: seq<FilterEndPoint>, every: bool, maxSize: nat)
  {
    predicate Valid() { netmask <= 32 }
  }

  predicate Matches(f: FilterEndPoint, ep: EndPoint, netmask: nat) {
    var ip := if f.netmask < netmask && 0 < f.netmask < 32 then Masked(ep.ip, f.netmask) else ep.ip;
    && (ip == f.ip || f.netmask == 0)
    && (ep.port == f.port || f.port == -1)
    && (ep.protocol == f.protocol || f.protocol == -1)
  }

  /** monitorEndPoint, or monitorEveryEndPoint. */
  predicate Wanted(cfg: Config, ep: EndPoint) {
    cfg.every || exists i :: 0 <= i < |cfg.filters| && Matches(cfg.filters[i], ep, cfg.netmask)
  }

  /**
   * One more filter lets its endpoints in and keeps none out; without filters only a store for
   * every endpoint has any.
   */
  lemma WantedMore(cfg: Config, f: FilterEndPoint, ep: EndPoint)
    ensures Wanted(cfg.(filters := cfg.filters + [f]), ep) <==> Wanted(cfg, ep) || Matches(f, ep, cfg.netmask)
    ensures cfg.filters == [] ==> (Wanted(cfg, ep) <==> cfg.every)
  {
    var more := cfg.(filters := cfg.filters + [f]);
    assert more.filters[|cfg.filters|] == f;
    if Wanted(cfg, ep) && !cfg.every {
      var i :| 0 <= i < |cfg.filters| && Matches(cfg.filters[i], ep, cfg.netmask);
      assert more.filters[i] == cfg.filters[i];
    }
  }

  /** The endpoint as far as the endpoint key goes. */
  function Aggregate(cfg: Config, ep: EndPoint): EndPoint
    requires cfg.Valid()
  {
    EndPoint(if cfg.byIp then Masked(ep.ip, cfg.netmask) else Ip(0, 0, 0, 0),
             if cfg.byPort then ep.port else 0,
             if cfg.byProtocol then ep.protocol else 0)
  }

  lemma AggregateTwice(cfg: Config, ep: EndPoint)
    requires cfg.Valid()
    ensures Aggregate(cfg, Aggregate(cfg, ep)) == Aggregate(cfg, ep)
    ensures ep.port < 0x1_0000 && ep.protocol < 256 ==> Proper(Aggregate(cfg, ep))
  {
    MaskedTwice(ep.ip, cfg.netmask);
  }

  /** Two endpoints are counted as one exactly if they agree in what the key names; the rest is zero. */
  lemma AggregateIff(cfg: Config, x: EndPoint, y: EndPoint)
    requires cfg.Valid()
    ensures Aggregate(cfg, x) == Aggregate(cfg, y) <==>
              && (cfg.byIp ==> Masked(x.ip, cfg.netmask) == Masked(y.ip, cfg.netmask))
              && (cfg.byPort ==> x.port == y.port)
              && (cfg.byProtocol ==> x.protocol == y.protocol)
    ensures var z := Aggregate(cfg, x);
            && (!cfg.byIp ==> z.ip == Ip(0, 0, 0, 0)) && (!cfg.byPort ==> z.port == 0)
            && (!cfg.byProtocol ==> z.protocol == 0)
  {
  }

  /** The address of an endpoint lies in the filter's network, or is its address if no shorter netmask is given. */
  predicate InNetwork(f: FilterEndPoint, ip: Ip, netmask: nat) {
    if f.netmask == 0 then true
    else if f.netmask < 32 && f.netmask < netmask then f.ip == Masked(ip, f.netmask)
    else f.ip == ip
  }

  /** A filter is passed exactly if each of its three parts is a wildcard or agrees with the endpoint. */
  lemma MatchesIff(f: FilterEndPoint, ep: EndPoint, netmask: nat)
    ensures Matches(f, ep, netmask) <==>
              && InNetwork(f, ep.ip, netmask)
              && (f.port >= 0 ==> f.port == ep.port) && (f.port < 0 ==> f.port == -1)
              && (f.protocol >= 0 ==> f.protocol == ep.protocol) && (f.protocol < 0 ==> f.protocol == -1)
  {
  }

  /** The members have the sizes of the record fields. */
  predicate Proper(ep: EndPoint) {
    ep.port < 0x1_0000 && ep.protocol < 256
  }

  // ---------------------------------------------------------------- the store

  const ZERO := Info(0, 0, 0, 0, 0, 0)

  function Plus(i: Info, j: Info): (k: Info)
    ensures k.Valid()
    ensures i == ZERO && j.Valid() ==> k == j
  {
    Info((i.packetsIn + j.packetsIn) % U64, (i.packetsOut + j.packetsOut) % U64, (i.bytesIn + j.bytesIn) % U64,
         (i.bytesOut + j.bytesOut) % U64, (i.recordsIn + j.recordsIn) % U64, (i.recordsOut + j.recordsOut) % U64)
  }

  type Data = map<EndPoint, Info>

  /** endPointList, which outlives the intervals, and the data of the current interval. */
  datatype State = State(known: seq<EndPoint>, data: Data)

  /** Traffic of an endpoint: added to its data, or the endpoint becomes known while there is room. */
  function Add(cfg: Config, s: State, ep: EndPoint, info: Info): State {
    if !Wanted(cfg, ep) then s
    else if ep in s.known then
      s.(data := s.data[ep := Plus(if ep in s.data then s.data[ep] else ZERO, info)])
    else if |s.known| < cfg.maxSize then
      State(s.known + [ep], if ep in s.data then s.data else s.data[ep := info])
    else s
  }

  /** A record, its endpoints as addFieldData left them. */
  datatype Record = Record(source: EndPoint, dest: EndPoint, packets: nat, octets: nat)

  predicate Recorded(cfg: Config, r: Record)
    requires cfg.Valid()
  {
    && r.packets < U64 && r.octets < U64
    && Proper(r.source) && Aggregate(cfg, r.source) == r.source
    && Proper(r.dest) && Aggregate(cfg, r.dest) == r.dest
  }

  function RecordEnd(cfg: Config, s: State, r: Record): State {
    Add(cfg, Add(cfg, s, r.source, Info(0, r.packets, 0, r.octets, 0, 1)), r.dest,
        Info(r.packets, 0, r.octets, 0, 1, 0))
  }

  // ---------------------------------------------------------------- what every state keeps

  predicate NoDuplicates(s: seq<EndPoint>) {
    forall i, j :: 0 <= i < j < |s| ==> s[i] != s[j]
  }

  ghost predicate Inv(cfg: Config, s: State)
    requires cfg.Valid()
  {
    && NoDuplicates(s.known) && |s.known| <= cfg.maxSize
    && (forall ep :: ep in s.known ==> Wanted(cfg, ep) && Proper(ep) && Aggregate(cfg, ep) == ep)
    && (forall ep :: ep in s.data ==> ep in s.known && s.data[ep].Valid())
  }

  lemma AddInv(cfg: Config, s: State, ep: EndPoint, info: Info)
    requires cfg.Valid() && Inv(cfg, s) && info.Valid() && Proper(ep) && Aggregate(cfg, ep) == ep
    ensures Inv(cfg, Add(cfg, s, ep, info)) && s.known <= Add(cfg, s, ep, info).known
  {
  }

  lemma RecordInv(cfg: Config, s: State, r: Record)
    requires cfg.Valid() && Inv(cfg, s) && Recorded(cfg, r)
    ensures Inv(cfg, RecordEnd(cfg, s, r)) && s.known <= RecordEnd(cfg, s, r).known
  {
    var info1, info2 := Info(0, r.packets, 0, r.octets, 0, 1), Info(r.packets, 0, r.octets, 0, 1, 0);
    AddInv(cfg, s, r.source, info1);
    AddInv(cfg, Add(cfg, s, r.source, info1), r.dest, info2);
  }

  // ---------------------------------------------------------------- the dump file

  function MapOf(es: List<Entry>): Data {
    if es.Nil? then map[] else MapOf(es.tail)[es.head.ep := es.head.info]
  }

  predicate Distinct(es: List<Entry>) {
    es.Cons? ==> es.head.ep !in MapOf(es.tail) && Distinct(es.tail)
  }

  /** The entries are those of the map, in some order. */
  predicate Enumerates(es: List<Entry>, data: Data) {
    Distinct(es) && MapOf(es) == data
  }

  /** The entries, a line each, and what follows. */
  function Lines(es: List<Entry>, rest: string): string {
    if es.Nil? then rest else Line(es.head) + (['\n'] + Lines(es.tail, rest))
  }

  /** The end of interval n. */
  function Separator(n: nat, rest: string): string {
    "--- " + (Decimal(n) + (['\n'] + rest))
  }

  /** store: what was loaded; valid: whether the stream is still good, and with it the data. */
  datatype Outcome = Loaded(state: State, rest: string, valid: bool) | Malformed

  /** One line of the file, its endpoint aggregated. */
  function LoadLine(cfg: Config, s: State, line: string): Option<State>
    requires cfg.Valid()
  {
    match ParseLine(line)
    case None => None
    case Some(e) => Some(Add(cfg, s, Aggregate(cfg, e.ep), e.info))
  }

  predicate IsSeparator(line: string) { "---" <= line }

  /** The getline loop of operator>>: up to the next separator; a last line without end is dropped. */
  function ReadLines(cfg: Config, s: State, file: string): Outcome
    requires cfg.Valid()
    decreases |file|
  {
    if file == [] then Loaded(s, [], false)
    else
      CutShortens(file, '\n');
      match Cut(file, '\n')
      case None => Loaded(s, [], true)
      case Some((line, rest)) =>
        if IsSeparator(line) then Loaded(s, rest, true)
        else
          match LoadLine(cfg, s, line)
          case None => Malformed
          case Some(s') => ReadLines(cfg, s', rest)
  }

  lemma {:induction false} CutShortens(s: string, c: char)
    ensures Cut(s, c).Some? ==> |Cut(s, c).value.1| < |s|
  {
    if s != [] && s[0] != c { CutShortens(s[1..], c); }
  }

  function LoadAll(cfg: Config, s: State, es: List<Entry>): State
    requires cfg.Valid()
    decreases es
  {
    if es.Nil? then s else LoadAll(cfg, Add(cfg, s, Aggregate(cfg, es.head.ep), es.head.info), es.tail)
  }

  predicate AllValid(es: List<Entry>) {
    es.Cons? ==> es.head.Valid() && AllValid(es.tail)
  }

  lemma {:induction false} ReadOneLine(cfg: Config, s: State, e: Entry, rest: string)
    requires cfg.Valid() && e.Valid()
    ensures ReadLines(cfg, s, Line(e) + (['\n'] + rest))
            == ReadLines(cfg, Add(cfg, s, Aggregate(cfg, e.ep), e.info), rest)
  {
    LinePlain(e);
    CutAt(Line(e), '\n', rest);
    LineRoundTrip(e);
    assert !IsSeparator(Line(e));
  }

  /** Any line that starts with three dashes ends the reading. */
  lemma {:induction false} DashesEnd(cfg: Config, s: State, line: string, rest: string)
    requires cfg.Valid() && '\n' !in line
    ensures ReadLines(cfg, s, "---" + line + (['\n'] + rest)) == Loaded(s, rest, true)
  {
    CutAt("---" + line, '\n', rest);
  }

  lemma {:induction false} ReadSeparator(cfg: Config, s: State, n: nat, rest: string)
    requires cfg.Valid()
    ensures ReadLines(cfg, s, Separator(n, rest)) == Loaded(s, rest, true)
  {
    assert Separator(n, rest) == "---" + (" " + Decimal(n)) + (['\n'] + rest);
    DashesEnd(cfg, s, " " + Decimal(n), rest);
  }

  /** What was dumped is what is loaded, and reading stops behind the separator. */
  lemma {:induction false} ReadDump(cfg: Config, s: State, es: List<Entry>, n: nat, rest: string)
    requires cfg.Valid() && AllValid(es)
    ensures ReadLines(cfg, s, Lines(es, Separator(n, rest))) == Loaded(LoadAll(cfg, s, es), rest, true)
    decreases es
  {
    if es.Nil? {
      ReadSeparator(cfg, s, n, rest);
    } else {
      ReadOneLine(cfg, s, es.head, Lines(es.tail, Separator(n, rest)));
      ReadDump(cfg, Add(cfg, s, Aggregate(cfg, es.head.ep), es.head.info), es.tail, n, rest);
    }
  }

  /** A file that ends inside a line gives the entries before it; one that ends behind a line leaves the stream bad. */
  lemma {:induction false} ReadTruncated(cfg: Config, s: State, es: List<Entry>, partial: string)
    requires cfg.Valid() && AllValid(es) && '\n' !in partial
    ensures ReadLines(cfg, s, Lines(es, partial)) == Loaded(LoadAll(cfg, s, es), [], partial != [])
    decreases es
  {
    if es.Nil? {
      CutNone(partial, '\n');
    } else {
      ReadOneLine(cfg, s, es.head, Lines(es.tail, partial));
      ReadTruncated(cfg, Add(cfg, s, Aggregate(cfg, es.head.ep), es.head.info), es.tail, partial);
    }
  }

  lemma {:induction false} CutNone(s: string, c: char)
    requires c !in s
    ensures Cut(s, c) == None
  {
    if s != [] { CutNone(s[1..], c); }
  }

  // ---------------------------------------------------------------- reloading

  ghost predicate Within(a: seq<EndPoint>, b: seq<EndPoint>) {
    forall ep :: ep in a ==> ep in b
  }

  function Elements(s: seq<EndPoint>): (r: set<EndPoint>)
    ensures forall ep :: ep in r <==> ep in s
  {
    set ep | ep in s
  }

  lemma {:induction false} Cardinality(s: seq<EndPoint>)
    requires NoDuplicates(s)
    ensures |Elements(s)| == |s|
  {
    if s != [] {
      var front := s[..|s| - 1];
      Cardinality(front);
      assert Elements(s) == Elements(front) + {s[|s| - 1]};
    }
  }

  lemma {:induction false} Subset<T>(a: set<T>, b: set<T>)
    requires a <= b
    ensures |a| <= |b|
  {
    if a != {} {
      var x :| x in a;
      Subset(a - {x}, b - {x});
    }
  }

  /** An endpoint that is still missing finds room. */
  lemma Room(s: seq<EndPoint>, known: seq<EndPoint>, ep: EndPoint)
    requires NoDuplicates(s) && NoDuplicates(known) && Within(s, known) && ep in known && ep !in s
    ensures |s| < |known|
  {
    Cardinality(s);
    Cardinality(known);
    assert ep !in Elements(s) && Elements(s) + {ep} <= Elements(known);
    Subset(Elements(s) + {ep}, Elements(known));
  }

  /** The state of the reader when the writer knew the endpoints in known. */
  ghost predicate Reading(cfg: Config, s: State, known: seq<EndPoint>) {
    && NoDuplicates(known) && |known| <= cfg.maxSize
    && NoDuplicates(s.known) && Within(s.known, known)
  }

  ghost predicate Loadable(cfg: Config, ep: EndPoint, info: Info, known: seq<EndPoint>)
    requires cfg.Valid()
  {
    ep in known && Wanted(cfg, ep) && Aggregate(cfg, ep) == ep && info.Valid()
  }

  lemma AddNew(cfg: Config, s: State, ep: EndPoint, info: Info, known: seq<EndPoint>)
    requires cfg.Valid() && Reading(cfg, s, known) && Loadable(cfg, ep, info, known) && ep !in s.data
    ensures Add(cfg, s, ep, info).data == s.data[ep := info] && Reading(cfg, Add(cfg, s, ep, info), known)
  {
    if ep !in s.known { Room(s.known, known, ep); }
  }

  lemma {:induction false} Reloaded(cfg: Config, s: State, es: List<Entry>, known: seq<EndPoint>)
    requires cfg.Valid() && Reading(cfg, s, known) && Distinct(es)
    requires forall ep :: ep in MapOf(es) ==> ep !in s.data && Loadable(cfg, ep, MapOf(es)[ep], known)
    ensures LoadAll(cfg, s, es).data == s.data + MapOf(es) && Reading(cfg, LoadAll(cfg, s, es), known)
    decreases es
  {
    if es.Cons? {
      var ep, info := es.head.ep, es.head.info;
      assert ep in MapOf(es) && MapOf(es)[ep] == info;
      AddNew(cfg, s, ep, info, known);
      var s' := Add(cfg, s, ep, info);
      forall other | other in MapOf(es.tail)
        ensures other !in s'.data && Loadable(cfg, other, MapOf(es.tail)[other], known)
      {
        assert other in MapOf(es);
      }
      Reloaded(cfg, s', es.tail, known);
      assert s.data[ep := info] + MapOf(es.tail) == s.data + MapOf(es);
    }
  }

  // ---------------------------------------------------------------- whole sessions

  /** The records of an interval, and the order in which its data was dumped. */
  datatype Interval = Interval(records: List<Record>, dump: List<Entry>)

  function Collect(cfg: Config, s: State, records: List<Record>): State
    decreases records
  {
    if records.Nil? then s else Collect(cfg, RecordEnd(cfg, s, records.head), records.tail)
  }

  predicate AllRecorded(cfg: Config, records: List<Record>)
    requires cfg.Valid()
  {
    records.Cons? ==> Recorded(cfg, records.head) && AllRecorded(cfg, records.tail)
  }

  /** The data of every interval; the endpoints known at its end stay known. */
  function Online(cfg: Config, known: seq<EndPoint>, session: List<Interval>): List<Data>
    decreases session
  {
    if session.Nil? then Nil
    else
      var s := Collect(cfg, State(known, map[]), session.head.records);
      Cons(s.data, Online(cfg, s.known, session.tail))
  }

  /** Every dump lists the data of its interval. */
  predicate Dumped(cfg: Config, known: seq<EndPoint>, session: List<Interval>)
    requires cfg.Valid()
    decreases session
  {
    session.Cons? ==>
      var s := Collect(cfg, State(known, map[]), session.head.records);
      && AllRecorded(cfg, session.head.records)
      && Enumerates(session.head.dump, s.data)
      && Dumped(cfg, s.known, session.tail)
  }

  /** The file; n: the test counter. */
  function File(session: List<Interval>, n: nat): string {
    if session.Nil? then [] else Lines(session.head.dump, Separator(n, File(session.tail, n + 1)))
  }

  /** One reading per interval; None: some reading failed. */
  function Offline(cfg: Config, known: seq<EndPoint>, file: string, readings: nat): Option<List<Data>>
    requires cfg.Valid()
    decreases readings
  {
    if readings == 0 then Some(Nil)
    else
      match ReadLines(cfg, State(known, map[]), file)
      case Malformed => None
      case Loaded(s, rest, valid) =>
        if !valid then None
        else
          match Offline(cfg, s.known, rest, readings - 1)
          case None => None
          case Some(later) => Some(Cons(s.data, later))
  }

  lemma {:induction false} CollectInv(cfg: Config, s: State, records: List<Record>)
    requires cfg.Valid() && Inv(cfg, s) && AllRecorded(cfg, records)
    ensures Inv(cfg, Collect(cfg, s, records)) && s.known <= Collect(cfg, s, records).known
    decreases records
  {
    if records.Cons? {
      RecordInv(cfg, s, records.head);
      CollectInv(cfg, RecordEnd(cfg, s, records.head), records.tail);
    }
  }

  lemma {:induction false} DumpValid(es: List<Entry>)
    requires Distinct(es)
    requires forall ep :: ep in MapOf(es) ==> Proper(ep) && MapOf(es)[ep].Valid()
    ensures AllValid(es)
  {
    if es.Cons? {
      assert es.head.ep in MapOf(es);
      forall ep | ep in MapOf(es.tail)
        ensures Proper(ep) && MapOf(es.tail)[ep].Valid()
      {
        assert ep in MapOf(es);
      }
      DumpValid(es.tail);
    }
  }

  /** One interval: collected with the endpoints in known, dumped, and loaded with those in known'. */
  lemma IntervalReloaded(cfg: Config, known: seq<EndPoint>, known': seq<EndPoint>, interval: Interval, n: nat,
                         rest: string)
    returns (s: State, s': State)
    requires cfg.Valid() && Inv(cfg, State(known, map[])) && NoDuplicates(known') && Within(known', known)
    requires AllRecorded(cfg, interval.records)
    requires Enumerates(interval.dump, Collect(cfg, State(known, map[]), interval.records).data)
    ensures s == Collect(cfg, State(known, map[]), interval.records) && Inv(cfg, s)
    ensures ReadLines(cfg, State(known', map[]), Lines(interval.dump, Separator(n, rest))) == Loaded(s', rest, true)
    ensures s'.data == s.data && NoDuplicates(s'.known) && Within(s'.known, s.known)
  {
    s := Collect(cfg, State(known, map[]), interval.records);
    CollectInv(cfg, State(known, map[]), interval.records);
    s' := DumpReloaded(cfg, s, known', interval.dump, n, rest);
  }

  /** A dump of the data of s, loaded into an empty store. */
  lemma DumpReloaded(cfg: Config, s: State, known': seq<EndPoint>, dump: List<Entry>, n: nat, rest: string)
    returns (s': State)
    requires cfg.Valid() && Inv(cfg, s) && NoDuplicates(known') && Within(known', s.known) && Enumerates(dump, s.data)
    ensures ReadLines(cfg, State(known', map[]), Lines(dump, Separator(n, rest))) == Loaded(s', rest, true)
    ensures s'.data == s.data && NoDuplicates(s'.known) && Within(s'.known, s.known)
  {
    DumpValid(dump);
    ReadDump(cfg, State(known', map[]), dump, n, rest);
    s' := LoadAll(cfg, State(known', map[]), dump);
    DumpLoaded(cfg, s, known', dump);
  }

  lemma {:induction false} DumpLoaded(cfg: Config, s: State, known': seq<EndPoint>, dump: List<Entry>)
    requires cfg.Valid() && Inv(cfg, s) && NoDuplicates(known') && Within(known', s.known) && Enumerates(dump, s.data)
    ensures var s' := LoadAll(cfg, State(known', map[]), dump);
            s'.data == s.data && NoDuplicates(s'.known) && Within(s'.known, s.known)
  {
    forall ep | ep in MapOf(dump)
      ensures Loadable(cfg, ep, MapOf(dump)[ep], s.known)
    {
      assert ep in s.data && ep in s.known;
    }
    Reloaded(cfg, State(known', map[]), dump, s.known);
    assert map[] + MapOf(dump) == s.data;
  }

  /**
   * Reading the file of a session with the same configuration gives the data of
   * every interval again, in order.
   */
  lemma {:induction false} SessionReloaded(cfg: Config, known: seq<EndPoint>, known': seq<EndPoint>,
                                           session: List<Interval>, n: nat)
    requires cfg.Valid() && Inv(cfg, State(known, map[])) && NoDuplicates(known') && Within(known', known)
    requires Dumped(cfg, known, session)
    ensures Offline(cfg, known', File(session, n), Length(session)) == Some(Online(cfg, known, session))
    decreases session
  {
    if session.Cons? {
      var s, s' := IntervalReloaded(cfg, known, known', session.head, n, File(session.tail, n + 1));
      assert Inv(cfg, State(s.known, map[]));
      SessionReloaded(cfg, s.known, s'.known, session.tail, n + 1);
    }
  }

  /** From a fresh start on both sides. */
  lemma {:induction false} DumpAndReload(cfg: Config, session: List<Interval>, n: nat)
    requires cfg.Valid() && Dumped(cfg, [], session)
    ensures Offline(cfg, [], File(session, n), Length(session)) == Some(Online(cfg, [], session))
  {
    SessionReloaded(cfg, [], [], session, n);
  }

  // ---------------------------------------------------------------- the data of an interval

  /** What an endpoint sent or received: packets, octets and records. */
  datatype Traffic = Traffic(packets: nat, octets: nat, records: nat)

  const NONE := Traffic(0, 0, 0)

  function Both(t: Traffic, u: Traffic): Traffic {
    Traffic(t.packets + u.packets, t.octets + u.octets, t.records + u.records)
  }

  /** What a record counts for one of its endpoints. */
  function Once(r: Record, counts: bool): Traffic {
    if counts then Traffic(r.packets, r.octets, 1) else NONE
  }

  /** What the records with this source add up to. */
  function Sent(records: List<Record>, ep: EndPoint): Traffic {
    if records.Nil? then NONE else Both(Once(records.head, records.head.source == ep), Sent(records.tail, ep))
  }

  /** What those with this destination add up to. */
  function Received(records: List<Record>, ep: EndPoint): Traffic {
    if records.Nil? then NONE else Both(Once(records.head, records.head.dest == ep), Received(records.tail, ep))
  }

  predicate Named(records: List<Record>, ep: EndPoint) {
    records.Cons? && (records.head.source == ep || records.head.dest == ep || Named(records.tail, ep))
  }

  /** Counters of 64 bits, from i on. */
  function Raised(i: Info, sent: Traffic, received: Traffic): Info {
    Info((i.packetsIn + received.packets) % U64, (i.packetsOut + sent.packets) % U64,
         (i.bytesIn + received.octets) % U64, (i.bytesOut + sent.octets) % U64,
         (i.recordsIn + received.records) % U64, (i.recordsOut + sent.records) % U64)
  }

  lemma RaisedTwice(i: Info, a: Traffic, b: Traffic, c: Traffic, d: Traffic)
    ensures Raised(Raised(i, a, b), c, d) == Raised(i, Both(a, c), Both(b, d))
  {
    ModAdds(i.packetsIn + b.packets, d.packets);
    ModAdds(i.packetsOut + a.packets, c.packets);
    ModAdds(i.bytesIn + b.octets, d.octets);
    ModAdds(i.bytesOut + a.octets, c.octets);
    ModAdds(i.recordsIn + b.records, d.records);
    ModAdds(i.recordsOut + a.records, c.records);
  }

  lemma ModAdds(a: nat, b: nat)
    ensures (a % U64 + b) % U64 == (a + b) % U64
  {
  }

  lemma RaisedNone(i: Info)
    requires i.Valid()
    ensures Raised(i, NONE, NONE) == i
  {
  }

  function Counted(s: State, ep: EndPoint): Info {
    if ep in s.data then s.data[ep] else ZERO
  }

  /** Data only of known endpoints, and counters of 64 bits. */
  ghost predicate Kept(s: State) {
    forall ep :: ep in s.data ==> ep in s.known && s.data[ep].Valid()
  }

  /** What one handling of an endpoint does to the data of ep. */
  lemma AddCounts(cfg: Config, s: State, s': State, named: EndPoint, info: Info, ep: EndPoint)
    requires Kept(s) && info.Valid() && s' == Add(cfg, s, named, info)
    ensures Kept(s') && s.known <= s'.known && (|s.known| >= cfg.maxSize ==> s'.known == s.known)
    ensures named == ep && Wanted(cfg, ep) && ep in s'.known ==>
              ep in s'.data && s'.data[ep] == Plus(Counted(s, ep), info)
    ensures named == ep && Wanted(cfg, ep) && ep !in s'.known ==> |s'.known| >= cfg.maxSize
    ensures named != ep || !Wanted(cfg, ep) || ep !in s'.known ==>
              (ep in s'.data <==> ep in s.data) && Counted(s', ep) == Counted(s, ep)
  {
  }

  lemma PlusRaises(i: Info, info: Info, sent: Traffic, received: Traffic)
    requires info == Info(received.packets, sent.packets, received.octets, sent.octets, received.records, sent.records)
    ensures Plus(i, info) == Raised(i, sent, received)
  {
  }

  /** What one record does to the data of an endpoint that is known afterwards or not named by it. */
  lemma RecordCounts(cfg: Config, s: State, s': State, r: Record, ep: EndPoint)
    requires Kept(s) && r.packets < U64 && r.octets < U64 && s' == RecordEnd(cfg, s, r)
    ensures Kept(s') && s.known <= s'.known
    ensures Wanted(cfg, ep) && (ep in s'.known || (r.source != ep && r.dest != ep)) ==>
              && (ep in s'.data <==> ep in s.data || r.source == ep || r.dest == ep)
              && Counted(s', ep) == Raised(Counted(s, ep), Once(r, r.source == ep), Once(r, r.dest == ep))
    ensures Wanted(cfg, ep) && ep !in s'.known && (r.source == ep || r.dest == ep) ==> |s'.known| >= cfg.maxSize
    ensures !Wanted(cfg, ep) ==> (ep in s'.data <==> ep in s.data)
  {
    var one := Once(r, true);
    var info1, info2 := Info(0, r.packets, 0, r.octets, 0, 1), Info(r.packets, 0, r.octets, 0, 1, 0);
    var between := Add(cfg, s, r.source, info1);
    AddCounts(cfg, s, between, r.source, info1, ep);
    AddCounts(cfg, between, s', r.dest, info2, ep);
    PlusRaises(Counted(s, ep), info1, one, NONE);
    PlusRaises(Counted(between, ep), info2, NONE, one);
    HalvesCount(Counted(s, ep), r, r.source == ep, r.dest == ep);
    if ep in s.data { assert s.data[ep].Valid(); }
  }

  lemma HalvesCount(i: Info, r: Record, source: bool, dest: bool)
    requires i.Valid()
    ensures var between := if source then Raised(i, Once(r, true), NONE) else i;
            (if dest then Raised(between, NONE, Once(r, true)) else between)
              == Raised(i, Once(r, source), Once(r, dest))
  {
    RaisedNone(i);
    RaisedTwice(i, Once(r, source), NONE, NONE, Once(r, dest));
  }

  /** Once the list is full it stays what it is. */
  lemma {:induction false} FullStays(cfg: Config, s: State, records: List<Record>)
    requires |s.known| >= cfg.maxSize
    ensures Collect(cfg, s, records).known == s.known
    decreases records
  {
    if records.Cons? { FullStays(cfg, RecordEnd(cfg, s, records.head), records.tail); }
  }

  /** Known endpoints stay known, and others are missed only when the list is full. */
  lemma CollectsOne(cfg: Config, s: State, records: List<Record>, ep: EndPoint) returns (s1: State)
    requires cfg.Valid() && Kept(s) && records.Cons? && AllRecorded(cfg, records)
    ensures s1 == RecordEnd(cfg, s, records.head) && Kept(s1)
    ensures Collect(cfg, s, records) == Collect(cfg, s1, records.tail)
    ensures var r := records.head;
            Wanted(cfg, ep) && ep in Collect(cfg, s, records).known ==>
              && (ep in s1.data <==> ep in s.data || r.source == ep || r.dest == ep)
              && Counted(s1, ep) == Raised(Counted(s, ep), Once(r, r.source == ep), Once(r, r.dest == ep))
    ensures !Wanted(cfg, ep) ==> (ep in s1.data <==> ep in s.data)
  {
    s1 := RecordEnd(cfg, s, records.head);
    RecordCounts(cfg, s, s1, records.head, ep);
    if |s1.known| >= cfg.maxSize { FullStays(cfg, s1, records.tail); }
  }

  lemma {:induction false} CountedAll(i: Info, i1: Info, i2: Info, records: List<Record>, ep: EndPoint)
    requires records.Cons?
    requires i1 == Raised(i, Once(records.head, records.head.source == ep), Once(records.head, records.head.dest == ep))
    requires i2 == Raised(i1, Sent(records.tail, ep), Received(records.tail, ep))
    ensures i2 == Raised(i, Sent(records, ep), Received(records, ep))
  {
    var r := records.head;
    RaisedTwice(i, Once(r, r.source == ep), Once(r, r.dest == ep), Sent(records.tail, ep), Received(records.tail, ep));
  }

  lemma {:induction false} CollectCounts(cfg: Config, s: State, s': State, records: List<Record>, ep: EndPoint)
    requires cfg.Valid() && Kept(s) && AllRecorded(cfg, records) && s' == Collect(cfg, s, records)
    ensures Kept(s')
    ensures Wanted(cfg, ep) && ep in s'.known ==>
              && (ep in s'.data <==> ep in s.data || Named(records, ep))
              && Counted(s', ep) == Raised(Counted(s, ep), Sent(records, ep), Received(records, ep))
    ensures !Wanted(cfg, ep) ==> (ep in s'.data <==> ep in s.data)
    decreases records
  {
    if records.Nil? {
      if ep in s.data { assert s.data[ep].Valid(); }
      RaisedNone(Counted(s, ep));
    } else {
      var s1 := CollectsOne(cfg, s, records, ep);
      CollectCounts(cfg, s1, s', records.tail, ep);
      if Wanted(cfg, ep) && ep in s'.known {
        CountedAll(Counted(s, ep), Counted(s1, ep), Counted(s', ep), records, ep);
      }
    }
  }

  // ---------------------------------------------------------------- which endpoints are known

  /** The endpoints of interest in the order in which they first appear, without a limit. */
  function Join(cfg: Config, listed: seq<EndPoint>, ep: EndPoint): seq<EndPoint> {
    if Wanted(cfg, ep) && ep !in listed then listed + [ep] else listed
  }

  function Listed(cfg: Config, listed: seq<EndPoint>, records: List<Record>): seq<EndPoint>
    decreases records
  {
    if records.Nil? then listed
    else Listed(cfg, Join(cfg, Join(cfg, listed, records.head.source), records.head.dest), records.tail)
  }

  function First<T>(s: seq<T>, n: nat): seq<T> {
    if |s| <= n then s else s[..n]
  }

  lemma AddKnows(cfg: Config, s: State, ep: EndPoint, info: Info, listed: seq<EndPoint>)
    requires s.known == First(listed, cfg.maxSize)
    ensures Add(cfg, s, ep, info).known == First(Join(cfg, listed, ep), cfg.maxSize)
  {
  }

  /** Known are the first of them, as many as the list may hold. */
  lemma {:induction false} CollectKnows(cfg: Config, s: State, records: List<Record>, listed: seq<EndPoint>)
    requires s.known == First(listed, cfg.maxSize)
    ensures Collect(cfg, s, records).known == First(Listed(cfg, listed, records), cfg.maxSize)
    decreases records
  {
    if records.Cons? {
      var r := records.head;
      var info1, info2 := Info(0, r.packets, 0, r.octets, 0, 1), Info(r.packets, 0, r.octets, 0, 1, 0);
      AddKnows(cfg, s, r.source, info1, listed);
      AddKnows(cfg, Add(cfg, s, r.source, info1), r.dest, info2, Join(cfg, listed, r.source));
      CollectKnows(cfg, RecordEnd(cfg, s, r), records.tail, Join(cfg, Join(cfg, listed, r.source), r.dest));
    }
  }

  lemma {:induction false} ListedAre(cfg: Config, listed: seq<EndPoint>, records: List<Record>, ep: EndPoint)
    ensures ep in Listed(cfg, listed, records) <==> ep in listed || (Wanted(cfg, ep) && Named(records, ep))
    decreases records
  {
    if records.Cons? {
      ListedAre(cfg, Join(cfg, Join(cfg, listed, records.head.source), records.head.dest), records.tail, ep);
    }
  }

  /** The counters of an endpoint that sent and received this. */
  function Totals(sent: Traffic, received: Traffic): Info {
    Info(received.packets % U64, sent.packets % U64, received.octets % U64, sent.octets % U64,
         received.records % U64, sent.records % U64)
  }

  lemma RaisedZero(sent: Traffic, received: Traffic)
    ensures Raised(ZERO, sent, received) == Totals(sent, received)
  {
  }

  /**
   * The data of an interval: an endpoint is in it exactly if it is of interest, some record names it
   * and it is one of the first the list has room for; then its counters are, modulo 2^64, what the
   * records with this source sent and what those with this destination received.
   */
  lemma {:induction false} TotalsAre(cfg: Config, known: seq<EndPoint>, records: List<Record>, ep: EndPoint)
    requires cfg.Valid() && AllRecorded(cfg, records) && |known| <= cfg.maxSize
    ensures var data := Collect(cfg, State(known, map[]), records).data;
            && (ep in data <==>
                  && Wanted(cfg, ep) && Named(records, ep)
                  && ep in First(Listed(cfg, known, records), cfg.maxSize))
            && (ep in data ==> data[ep] == Totals(Sent(records, ep), Received(records, ep)))
  {
    var s := State(known, map[]);
    RaisedZero(Sent(records, ep), Received(records, ep));
    CollectKnows(cfg, s, records, known);
    CollectCounts(cfg, s, Collect(cfg, s, records), records, ep);
  }

  /** While there is room for all of them, no endpoint of interest is missed. */
  lemma {:induction false} NoneMissed(cfg: Config, known: seq<EndPoint>, records: List<Record>, ep: EndPoint)
    requires cfg.Valid() && AllRecorded(cfg, records) && |Listed(cfg, known, records)| <= cfg.maxSize
    ensures ep in Collect(cfg, State(known, map[]), records).data <==> Wanted(cfg, ep) && Named(records, ep)
  {
    ListedGrows(cfg, known, records);
    TotalsAre(cfg, known, records, ep);
    ListedAre(cfg, known, records, ep);
  }

  lemma {:induction false} ListedGrows(cfg: Config, listed: seq<EndPoint>, records: List<Record>)
    ensures |listed| <= |Listed(cfg, listed, records)|
    decreases records
  {
    if records.Cons? {
      ListedGrows(cfg, Join(cfg, Join(cfg, listed, records.head.source), records.head.dest), records.tail);
    }
  }

  // ---------------------------------------------------------------- the storage class

  class StatStore {
    const cfg: Config
    var endPointList: seq<EndPoint>
    var data: Data

    function Abs(): State
      reads this
    {
      State(endPointList, data)
    }

    constructor (c: Config)
      ensures cfg == c && Abs() == State([], map[])
    {
      cfg, endPointList, data := c, [], map[];
    }

    method MonitorEndPoint(ep: EndPoint) returns (r: bool)
      ensures r || cfg.every <==> Wanted(cfg, ep)
    {
      var i := 0;
      while i < |cfg.filters|
        invariant 0 <= i <= |cfg.filters|
        invariant forall j :: 0 <= j < i ==> !Matches(cfg.filters[j], ep, cfg.netmask)
      {
        if Matches(cfg.filters[i], ep, cfg.netmask) {
          return true;
        }
        i := i + 1;
      }
      return false;
    }

    /** The handling of one endpoint, of a record or of a line of the file. */
    method Handle(ep: EndPoint, info: Info)
      modifies this
      ensures Abs() == Add(cfg, old(Abs()), ep, info)
    {
      var monitored := MonitorEndPoint(ep);
      if monitored || cfg.every {
        if ep in endPointList {
          if ep !in data {
            data := data[ep := ZERO];
          }
          data := data[ep := Plus(data[ep], info)];
        } else if |endPointList| < cfg.maxSize {
          if ep !in data {
            data := data[ep := info];
          }
          endPointList := endPointList + [ep];
        }
      }
    }

    method EndRecord(r: Record)
      modifies this
      ensures Abs() == RecordEnd(cfg, old(Abs()), r)
    {
      Handle(r.source, Info(0, r.packets, 0, r.octets, 0, 1));
      Handle(r.dest, Info(r.packets, 0, r.octets, 0, 1, 0));
    }

    /** operator>>: the data of the next interval; ok is false where the source reads out of bounds. */
    method Read(file: string) returns (rest: string, valid: bool, ok: bool)
      requires cfg.Valid()
      modifies this
      ensures ok ==> Loaded(Abs(), rest, valid) == ReadLines(cfg, State(old(endPointList), map[]), file)
      ensures !ok ==> ReadLines(cfg, State(old(endPointList), map[]), file) == Malformed
    {
      data := map[];
      rest := file;
      ghost var outcome := ReadLines(cfg, Abs(), file);
      while rest != []
        invariant ReadLines(cfg, Abs(), rest) == outcome
        decreases |rest|
      {
        CutShortens(rest, '\n');
        match Cut(rest, '\n')
        case None =>
          return [], true, true;
        case Some((line, after)) =>
          if IsSeparator(line) {
            return after, true, true;
          }
          match ParseLine(line)
          case None =>
            return rest, false, false;
          case Some(e) =>
            Handle(Aggregate(cfg, e.ep), e.info);
            rest := after;
      }
      return [], false, true;
    }
  }
}
