/**
 * The text in which traffic data is stored for offline use: addresses, endpoints
 * and counters, as they are printed and as they are parsed again.
 */
module DumpText {
  import opened Bytes
  import opened Containers

  // ---------------------------------------------------------------- numbers

  predicate IsDigit(c: char) { '0' <= c <= '9' }

  function Digit(n: nat): (c: char)
    requires n < 10
    ensures IsDigit(c)
  {
    '0' + n as char
  }

  /** How an integer that is not negative is printed. */
  function Decimal(n: nat): (s: string)
    ensures s != [] && forall c :: c in s ==> IsDigit(c)
  {
    if n < 10 then [Digit(n)] else Decimal(n / 10) + [Digit(n % 10)]
  }

  /** The number in front of the text, and what follows it; soFar: the digits before. */
  function Digits(s: string, soFar: nat): (nat, string) {
    if s == [] || !IsDigit(s[0]) then (soFar, s) else Digits(s[1..], 10 * soFar + (s[0] - '0') as nat)
  }

  lemma {:induction false} DigitsOfDecimal(n: nat, rest: string)
    ensures Digits(Decimal(n) + rest, 0) == Digits(rest, n)
  {
    if n < 10 {
      assert ([Digit(n)] + rest)[1..] == rest;
    } else {
      var d := Digit(n % 10);
      DigitsOfDecimal(n / 10, [d] + rest);
      assert Decimal(n) + rest == Decimal(n / 10) + ([d] + rest);
      assert ([d] + rest)[1..] == rest;
    }
  }

  lemma {:induction false} DecimalStart(n: nat)
    ensures IsDigit(Decimal(n)[0])
  {
    assert Decimal(n)[0] in Decimal(n);
  }

  /** What operator>> makes of the text in front: blanks are skipped, and there must be a number that fits. */
  function Extract(s: string): (r: Option<(nat, string)>)
    ensures r.Some? ==> r.value.0 < U64
  {
    if s != [] && s[0] == ' ' then Extract(s[1..])
    else if s == [] || !IsDigit(s[0]) then None
    else
      var (n, rest) := Digits(s, 0);
      if n < U64 then Some((n, rest)) else None
  }

  lemma {:induction false} ExtractDecimal(n: nat, rest: string)
    requires n < U64 && (rest == [] || !IsDigit(rest[0]))
    ensures Extract(Decimal(n) + rest) == Some((n, rest))
    ensures Extract([' '] + (Decimal(n) + rest)) == Some((n, rest))
  {
    DigitsOfDecimal(n, rest);
    DecimalStart(n);
    assert (Decimal(n) + rest)[0] == Decimal(n)[0];
    assert ([' '] + (Decimal(n) + rest))[1..] == Decimal(n) + rest;
  }

  // ---------------------------------------------------------------- cutting

  /** The text before and after the first c: find and substr. */
  function Cut(s: string, c: char): Option<(string, string)> {
    if s == [] then None
    else if s[0] == c then Some(([], s[1..]))
    else
      match Cut(s[1..], c)
      case None => None
      case Some((before, after)) => Some(([s[0]] + before, after))
  }

  lemma {:induction false} CutAt(before: string, c: char, after: string)
    requires c !in before
    ensures Cut(before + ([c] + after), c) == Some((before, after))
  {
    var s := before + ([c] + after);
    if before == [] {
      assert s[1..] == after;
    } else {
      CutAt(before[1..], c, after);
      assert s[1..] == before[1..] + ([c] + after);
      assert [before[0]] + before[1..] == before;
    }
  }

  // ---------------------------------------------------------------- endpoints and counters

  datatype Ip = Ip(a: bv8, b: bv8, c: bv8, d: bv8)

  datatype EndPoint = EndPoint(ip: Ip, port: nat, protocol: nat)

  datatype Info = Info(packetsIn: nat, packetsOut: nat, bytesIn: nat, bytesOut: nat, recordsIn: nat, recordsOut: nat) {
    /** The counters are uint64_t. */
    predicate Valid() {
      packetsIn < U64 && packetsOut < U64 && bytesIn < U64 && bytesOut < U64 && recordsIn < U64 && recordsOut < U64
    }
  }

  datatype Entry = Entry(ep: EndPoint, info: Info) {
    /** The members fit the types the source stores and reads them in. */
    predicate Valid() {
      info.Valid() && ep.port < I32 && ep.protocol < 0x1_0000
    }
  }

  function Octet(x: bv8): string { Decimal(x as nat) }

  function IpText(ip: Ip): string {
    Octet(ip.a) + (['.'] + (Octet(ip.b) + (['.'] + (Octet(ip.c) + (['.'] + Octet(ip.d))))))
  }

  function EndPointText(ep: EndPoint, rest: string): string {
    IpText(ep.ip) + ([':'] + (Decimal(ep.port) + (['|'] + (Decimal(ep.protocol) + rest))))
  }

  function InfoText(i: Info): string {
    Decimal(i.packetsIn) + ([' '] + (Decimal(i.packetsOut) + ([' '] + (Decimal(i.bytesIn) + ([' ']
      + (Decimal(i.bytesOut) + ([' '] + (Decimal(i.recordsIn) + ([' '] + Decimal(i.recordsOut))))))))))
  }

  /** One line of the dump, without its end. */
  function Line(e: Entry): string {
    EndPointText(e.ep, ['_'] + InfoText(e.info))
  }

  /** atoi of a text that starts with a digit. */
  function Atoi(s: string): Option<nat> {
    var (n, _) := Digits(s, 0);
    if s != [] && IsDigit(s[0]) && n < I32 then Some(n) else None
  }

  lemma {:induction false} AtoiDecimal(n: nat)
    requires n < I32
    ensures Atoi(Decimal(n)) == Some(n)
  {
    DigitsOfDecimal(n, []);
    DecimalStart(n);
    assert Decimal(n) + [] == Decimal(n);
  }

  function ParseOctet(s: string): Option<bv8> {
    match Atoi(s)
    case None => None
    case Some(n) => if n < 256 then Some(n as bv8) else None
  }

  lemma OctetRoundTrip(x: bv8)
    ensures ParseOctet(Octet(x)) == Some(x)
  {
    AtoiDecimal(x as nat);
    assert (x as nat) as bv8 == x;
  }

  /** IpAddress::fromString, for a text of four octets; None: any other text. */
  function ParseIp(s: string): Option<Ip> {
    match Cut(s, '.') case None => None case Some((s1, r1)) =>
    match Cut(r1, '.') case None => None case Some((s2, r2)) =>
    match Cut(r2, '.') case None => None case Some((s3, s4)) =>
    match (ParseOctet(s1), ParseOctet(s2), ParseOctet(s3), ParseOctet(s4))
    case (Some(a), Some(b), Some(c), Some(d)) => if '.' in s4 then None else Some(Ip(a, b, c, d))
    case _ => None
  }

  lemma IpRoundTrip(ip: Ip)
    ensures ParseIp(IpText(ip)) == Some(ip)
  {
    var r2 := Octet(ip.c) + (['.'] + Octet(ip.d));
    var r1 := Octet(ip.b) + (['.'] + r2);
    CutAt(Octet(ip.a), '.', r1);
    CutAt(Octet(ip.b), '.', r2);
    CutAt(Octet(ip.c), '.', Octet(ip.d));
    OctetRoundTrip(ip.a);
    OctetRoundTrip(ip.b);
    OctetRoundTrip(ip.c);
    OctetRoundTrip(ip.d);
  }

  /** EndPoint::fromString; the protocol ends at the underscore. */
  function ParseEndPoint(s: string): Option<EndPoint> {
    match Cut(s, ':') case None => None case Some((ipText, r1)) =>
    match Cut(r1, '|') case None => None case Some((portText, r2)) =>
    match Cut(r2, '_') case None => None case Some((protocolText, _)) =>
    match (ParseIp(ipText), Atoi(portText), Atoi(protocolText))
    case (Some(ip), Some(port), Some(protocol)) => Some(EndPoint(ip, port, protocol))
    case _ => None
  }

  /** The characters of a printed address. */
  lemma IpTextPlain(ip: Ip, c: char)
    requires c in IpText(ip)
    ensures IsDigit(c) || c == '.'
  {
  }

  lemma EndPointRoundTrip(ep: EndPoint, rest: string)
    requires Entry(ep, Info(0, 0, 0, 0, 0, 0)).Valid()
    ensures ParseEndPoint(EndPointText(ep, ['_'] + rest)) == Some(ep)
  {
    var r2 := Decimal(ep.protocol) + (['_'] + rest);
    var r1 := Decimal(ep.port) + (['|'] + r2);
    forall c | c in IpText(ep.ip) ensures c != ':' { IpTextPlain(ep.ip, c); }
    CutAt(IpText(ep.ip), ':', r1);
    CutAt(Decimal(ep.port), '|', r2);
    CutAt(Decimal(ep.protocol), '_', rest);
    IpRoundTrip(ep.ip);
    AtoiDecimal(ep.port);
    AtoiDecimal(ep.protocol);
  }

  /** The six counters. */
  function ParseInfo(s: string): Option<Info> {
    match Extract(s) case None => None case Some((n1, r1)) =>
    match Extract(r1) case None => None case Some((n2, r2)) =>
    match Extract(r2) case None => None case Some((n3, r3)) =>
    match Extract(r3) case None => None case Some((n4, r4)) =>
    match Extract(r4) case None => None case Some((n5, r5)) =>
    match Extract(r5) case None => None case Some((n6, _)) => Some(Info(n1, n2, n3, n4, n5, n6))
  }

  /** Counters that are read fit their 64 bits, whatever the text. */
  lemma ParsedFits(s: string)
    ensures ParseInfo(s).Some? ==> ParseInfo(s).value.Valid()
  {
  }

  lemma InfoRoundTrip(i: Info)
    requires i.Valid()
    ensures ParseInfo(InfoText(i)) == Some(i)
  {
    var r5 := [' '] + Decimal(i.recordsOut);
    var r4 := [' '] + (Decimal(i.recordsIn) + r5);
    var r3 := [' '] + (Decimal(i.bytesOut) + r4);
    var r2 := [' '] + (Decimal(i.bytesIn) + r3);
    var r1 := [' '] + (Decimal(i.packetsOut) + r2);
    ExtractDecimal(i.packetsIn, r1);
    ExtractDecimal(i.packetsOut, r2);
    ExtractDecimal(i.bytesIn, r3);
    ExtractDecimal(i.bytesOut, r4);
    ExtractDecimal(i.recordsIn, r5);
    ExtractDecimal(i.recordsOut, []);
    assert Decimal(i.recordsOut) + [] == Decimal(i.recordsOut);
  }

  /** One line of the dump; the counters follow the first underscore. */
  function ParseLine(s: string): Option<Entry> {
    match Cut(s, '_') case None => None case Some((_, counters)) =>
    match (ParseEndPoint(s), ParseInfo(counters))
    case (Some(ep), Some(info)) => Some(Entry(ep, info))
    case _ => None
  }

  lemma EndPointTextPlain(ep: EndPoint, c: char)
    requires c in EndPointText(ep, [])
    ensures IsDigit(c) || c == '.' || c == ':' || c == '|'
  {
    if c in IpText(ep.ip) { IpTextPlain(ep.ip, c); }
  }

  lemma EndPointTextJoins(ep: EndPoint, rest: string)
    ensures EndPointText(ep, rest) == EndPointText(ep, []) + rest
  {
  }

  /** Printing and parsing a line gives the entry back. */
  lemma LineRoundTrip(e: Entry)
    requires e.Valid()
    ensures ParseLine(Line(e)) == Some(e)
  {
    var before, counters := EndPointText(e.ep, []), InfoText(e.info);
    EndPointTextJoins(e.ep, ['_'] + counters);
    forall c | c in before ensures c != '_' { EndPointTextPlain(e.ep, c); }
    CutAt(before, '_', counters);
    EndPointRoundTrip(e.ep, counters);
    InfoRoundTrip(e.info);
  }

  lemma InfoTextPlain(i: Info, c: char)
    requires c in InfoText(i)
    ensures IsDigit(c) || c == ' '
  {
  }

  /** A line has no line end in it and starts with a digit. */
  lemma LinePlain(e: Entry)
    ensures '\n' !in Line(e) && Line(e) != [] && IsDigit(Line(e)[0])
  {
    EndPointTextJoins(e.ep, ['_'] + InfoText(e.info));
    forall c | c in Line(e) ensures c != '\n' {
      if c in EndPointText(e.ep, []) { EndPointTextPlain(e.ep, c); }
      if c in InfoText(e.info) { InfoTextPlain(e.info, c); }
    }
    DecimalStart(e.ep.ip.a as nat);
    assert Line(e)[0] == Octet(e.ep.ip.a)[0];
  }

  /** What a line looks like. */
  lemma LineLooks()
    ensures Line(Entry(EndPoint(Ip(1, 2, 3, 4), 5, 6), Info(7, 8, 9, 0, 1, 2))) == "1.2.3.4" + ":5|6_" + "7 8 9 0 1 2"
  {
    AddressLooks();
    CountersLook();
    EndPointLooks(Ip(1, 2, 3, 4), "7 8 9 0 1 2");
  }

  lemma EndPointLooks(ip: Ip, rest: string)
    ensures EndPointText(EndPoint(ip, 5, 6), ['_'] + rest) == IpText(ip) + ":5|6_" + rest
  {
  }

  lemma AddressLooks()
    ensures IpText(Ip(1, 2, 3, 4)) == "1.2.3.4"
  {
  }

  lemma CountersLook()
    ensures InfoText(Info(7, 8, 9, 0, 1, 2)) == "7 8 9 0 1 2"
  {
  }

  lemma NumberLooks()
    ensures Decimal(456) == "456"
  {
    assert Decimal(45) == "45";
  }
}
