/** The tables of octets, packets and flows per address and per port. */
module FlowCount {
  import opened BloomFilters
  import opened Bytes

  /** The IP-5-tuple of a record, in network byte order. */
  datatype Quintuple = Quintuple(srcIp: seq<byte>, dstIp: seq<byte>, proto: byte, srcPort: seq<byte>,
                                 dstPort: seq<byte>)
  {
    predicate Valid() { |srcIp| == |dstIp| == 4 && |srcPort| == |dstPort| == 2 }

    /** The memory of QuintupleKey: a packed-to-alignment struct in a zeroed buffer. */
    function Data(): Key { srcIp + dstIp + [proto, 0] + srcPort + dstPort + [0] }
  }

  datatype Record = Record(flow: Quintuple, octets: nat, packets: nat)

  datatype Kind = SrcIp | DstIp | SrcPort | DstPort

  /** The key of a table: an address, or the protocol above the port. */
  datatype TableKey = Ip(address: seq<byte>) | ProtoPort(port: nat)

  function KeyOf(flow: Quintuple, kind: Kind): TableKey
    requires flow.Valid()
  {
    match kind
    case SrcIp => Ip(flow.srcIp)
    case DstIp => Ip(flow.dstIp)
    case SrcPort => ProtoPort(flow.proto as nat * 0x1_0000 + flow.srcPort[0] as nat * 0x100 + flow.srcPort[1] as nat)
    case DstPort => ProtoPort(flow.proto as nat * 0x1_0000 + flow.dstPort[0] as nat * 0x100 + flow.dstPort[1] as nat)
  }

  /** Records meet in a table exactly if they agree in the address, or in the protocol and the port, it is kept for. */
  lemma KeyIff(f: Quintuple, g: Quintuple)
    requires f.Valid() && g.Valid()
    ensures KeyOf(f, SrcIp) == KeyOf(g, SrcIp) <==> f.srcIp == g.srcIp
    ensures KeyOf(f, DstIp) == KeyOf(g, DstIp) <==> f.dstIp == g.dstIp
    ensures KeyOf(f, SrcPort) == KeyOf(g, SrcPort) <==> f.proto == g.proto && f.srcPort == g.srcPort
    ensures KeyOf(f, DstPort) == KeyOf(g, DstPort) <==> f.proto == g.proto && f.dstPort == g.dstPort
  {
    PortTells(f.proto, f.srcPort, g.proto, g.srcPort);
    PortTells(f.proto, f.dstPort, g.proto, g.dstPort);
  }

  lemma PortTells(p: byte, a: seq<byte>, q: byte, b: seq<byte>)
    requires |a| == |b| == 2
    ensures var x, y := p as nat * 0x1_0000 + a[0] as nat * 0x100 + a[1] as nat,
                        q as nat * 0x1_0000 + b[0] as nat * 0x100 + b[1] as nat;
            x == y <==> p == q && a == b
  {
    DigitsTell(p as nat, a[0] as nat, a[1] as nat, q as nat, b[0] as nat, b[1] as nat);
    assert a == [a[0], a[1]] && b == [b[0], b[1]];
  }

  lemma DigitsTell(p: nat, a: nat, c: nat, q: nat, b: nat, d: nat)
    requires a < 256 && c < 256 && b < 256 && d < 256
    ensures p * 0x1_0000 + a * 0x100 + c == q * 0x1_0000 + b * 0x100 + d ==> p == q && a == b && c == d
  {
  }

  /** The filter's key tells any two 5-tuples apart. */
  lemma DataTells(f: Quintuple, g: Quintuple)
    requires f.Valid() && g.Valid()
    ensures f.Data() == g.Data() <==> f == g
  {
    if f.Data() == g.Data() {
      DataParts(f);
      DataParts(g);
    }
  }

  lemma DataParts(f: Quintuple)
    requires f.Valid()
    ensures |f.Data()| == 15 && f.Data()[0..4] == f.srcIp && f.Data()[4..8] == f.dstIp && f.Data()[8] == f.proto
    ensures f.Data()[10..12] == f.srcPort && f.Data()[12..14] == f.dstPort && f.Data()[9] == f.Data()[14] == 0
  {
  }

  datatype Counters = Counters(octets: nat, packets: nat, flows: nat) {
    function Update(o: nat, p: nat, f: nat): Counters {
      Counters((octets + o) % U64, (packets + p) % U64, (flows + f) % U64)
    }
  }

  type Table = map<TableKey, Counters>

  /** updateIpCountMap and updatePortCountMap while there is room for a new entry. */
  function Updated(table: Table, key: TableKey, r: Record, newFlow: bool): Table {
    if key in table then table[key := table[key].Update(r.octets, r.packets, if newFlow then 1 else 0)]
    else table[key := Counters(r.octets % U64, r.packets % U64, 1)]
  }

  // ---------------------------------------------------------------- what the tables ought to say

  /** The records since the store was created. */
  datatype Log = Nothing | Seen(before: Log, r: Record)

  predicate WellFormed(log: Log) {
    log.Seen? ==> log.r.flow.Valid() && WellFormed(log.before)
  }

  function Count(log: Log): nat {
    if log.Nothing? then 0 else Count(log.before) + 1
  }

  /** The different 5-tuples that came with the key. */
  function Flows(log: Log, kind: Kind, key: TableKey): set<Quintuple>
    requires WellFormed(log)
  {
    if log.Nothing? then {}
    else Flows(log.before, kind, key) + if KeyOf(log.r.flow, kind) == key then {log.r.flow} else {}
  }

  function Octets(log: Log, kind: Kind, key: TableKey): nat
    requires WellFormed(log)
  {
    if log.Nothing? then 0
    else Octets(log.before, kind, key) + if KeyOf(log.r.flow, kind) == key then log.r.octets else 0
  }

  function Packets(log: Log, kind: Kind, key: TableKey): nat
    requires WellFormed(log)
  {
    if log.Nothing? then 0
    else Packets(log.before, kind, key) + if KeyOf(log.r.flow, kind) == key then log.r.packets else 0
  }

  // ---------------------------------------------------------------- what the store does

  ghost function Filter(h: Hashing, log: Log): set<nat>
    requires h.Valid() && WellFormed(log)
  {
    if log.Nothing? then {} else Filter(h, log.before) + h.Indexes(log.r.flow.Data())
  }

  /** The filter takes the flow for known, and every table that is kept has its key. */
  ghost predicate TakenForKnown(h: Hashing, on: set<Kind>, log: Log, flow: Quintuple)
    requires h.Valid() && WellFormed(log) && flow.Valid()
    decreases log, 1
  {
    && h.Indexes(flow.Data()) <= Filter(h, log)
    && forall kind :: kind in on ==> KeyOf(flow, kind) in TableOf(h, on, log, kind)
  }

  ghost function TableOf(h: Hashing, on: set<Kind>, log: Log, kind: Kind): Table
    requires h.Valid() && WellFormed(log)
    decreases log, 0
  {
    if log.Nothing? || kind !in on then map[]
    else Updated(TableOf(h, on, log.before, kind), KeyOf(log.r.flow, kind), log.r,
                 !TakenForKnown(h, on, log.before, log.r.flow))
  }

  /**
   * The last record is a new flow with the key that is taken for a known one: an undetected
   * collision in the filter.
   */
  ghost predicate Mistaken(h: Hashing, on: set<Kind>, log: Log, kind: Kind, key: TableKey)
    requires h.Valid() && WellFormed(log) && log.Seen?
  {
    && KeyOf(log.r.flow, kind) == key
    && log.r.flow !in Flows(log.before, kind, key)
    && TakenForKnown(h, on, log.before, log.r.flow)
  }

  ghost function Missed(h: Hashing, on: set<Kind>, log: Log, kind: Kind, key: TableKey): nat
    requires h.Valid() && WellFormed(log)
  {
    if log.Nothing? then 0 else Missed(h, on, log.before, kind, key) + if Mistaken(h, on, log, kind, key) then 1 else 0
  }

  // ---------------------------------------------------------------- they agree

  lemma {:induction false} FilterKeeps(h: Hashing, log: Log, kind: Kind, flow: Quintuple)
    requires h.Valid() && WellFormed(log) && flow.Valid() && flow in Flows(log, kind, KeyOf(flow, kind))
    ensures h.Indexes(flow.Data()) <= Filter(h, log)
  {
    if log.r.flow != flow { FilterKeeps(h, log.before, kind, flow); }
  }

  lemma {:induction false} FlowsHaveKey(log: Log, kind: Kind, key: TableKey, flow: Quintuple)
    requires WellFormed(log) && flow in Flows(log, kind, key)
    ensures flow.Valid() && KeyOf(flow, kind) == key
    ensures forall other :: flow in Flows(log, other, KeyOf(flow, other))
  {
    if flow in Flows(log.before, kind, key) {
      FlowsHaveKey(log.before, kind, key, flow);
    }
  }

  lemma {:induction false} TableKeys(h: Hashing, on: set<Kind>, log: Log, kind: Kind, key: TableKey)
    requires h.Valid() && WellFormed(log) && kind in on
    ensures key in TableOf(h, on, log, kind) <==> Flows(log, kind, key) != {}
  {
    if log.Seen? { TableKeys(h, on, log.before, kind, key); }
  }

  /** A flow that came before is never taken for new. */
  lemma {:induction false} SeenIsKnown(h: Hashing, on: set<Kind>, log: Log, kind: Kind, key: TableKey, flow: Quintuple)
    requires h.Valid() && WellFormed(log) && flow in Flows(log, kind, key)
    ensures flow.Valid() && TakenForKnown(h, on, log, flow)
  {
    FlowsHaveKey(log, kind, key, flow);
    FilterKeeps(h, log, kind, flow);
    forall other | other in on
      ensures KeyOf(flow, other) in TableOf(h, on, log, other)
    {
      TableKeys(h, on, log, other, KeyOf(flow, other));
    }
  }

  /** The entry of the key, if there is one, has the totals modulo 2^64, and its flows and the missed ones are all. */
  predicate Accounts(table: Table, key: TableKey, octets: nat, packets: nat, all: nat, missed: nat) {
    && (key in table <==> all > 0)
    && (all == 0 ==> octets == packets == missed == 0)
    && (key in table ==>
         && table[key].octets == octets % U64 && table[key].packets == packets % U64
         && table[key].flows >= 1 && table[key].flows + missed == all)
  }

  lemma AddsModulo(a: nat, b: nat, x: nat)
    requires a == b % U64
    ensures (a + x) % U64 == (b + x) % U64
  {
  }

  lemma AccountsKnown(table: Table, key: TableKey, octets: nat, packets: nat, all: nat, missed: nat, r: Record,
                      newFlow: bool, isNew: bool)
    requires Accounts(table, key, octets, packets, all, missed) && all + 1 < U64
    requires key in table && (newFlow ==> isNew)
    ensures Accounts(Updated(table, key, r, newFlow), key, octets + r.octets, packets + r.packets,
                     all + if isNew then 1 else 0, missed + if isNew && !newFlow then 1 else 0)
  {
    AddsModulo(table[key].octets, octets, r.octets);
    AddsModulo(table[key].packets, packets, r.packets);
  }

  lemma AccountsMore(table: Table, key: TableKey, octets: nat, packets: nat, all: nat, missed: nat, r: Record,
                     newFlow: bool, isNew: bool)
    requires Accounts(table, key, octets, packets, all, missed) && all + 1 < U64
    requires newFlow ==> isNew
    requires key !in table ==> newFlow
    ensures Accounts(Updated(table, key, r, newFlow), key, octets + r.octets, packets + r.packets,
                     all + if isNew then 1 else 0, missed + if isNew && !newFlow then 1 else 0)
  {
    if key in table { AccountsKnown(table, key, octets, packets, all, missed, r, newFlow, isNew); }
  }

  lemma AccountsOther(table: Table, key: TableKey, octets: nat, packets: nat, all: nat, missed: nat, other: TableKey,
                      r: Record, newFlow: bool)
    requires Accounts(table, key, octets, packets, all, missed) && other != key
    ensures Accounts(Updated(table, other, r, newFlow), key, octets, packets, all, missed)
  {
  }

  /**
   * Every table entry, exactly: the octets and packets of its records modulo 2^64, and
   * its flows together with the undetected collisions are the different 5-tuples.
   */
  lemma {:induction false} EntriesAre(h: Hashing, on: set<Kind>, log: Log, kind: Kind, key: TableKey)
    returns (table: Table, octets: nat, packets: nat, all: set<Quintuple>, missed: nat)
    requires h.Valid() && WellFormed(log) && kind in on && Count(log) < U64
    ensures table == TableOf(h, on, log, kind) && all == Flows(log, kind, key)
            && missed == Missed(h, on, log, kind, key)
    ensures octets == Octets(log, kind, key) && packets == Packets(log, kind, key)
    ensures Accounts(table, key, octets, packets, |all|, missed) && |all| <= Count(log)
  {
    if log.Nothing? {
      table, octets, packets, all, missed := map[], 0, 0, {}, 0;
    } else {
      table, octets, packets, all, missed := EntriesAre(h, on, log.before, kind, key);
      if KeyOf(log.r.flow, kind) == key {
        table, octets, packets, all, missed := EntryMore(h, on, log, kind, key, table, octets, packets, all, missed);
      } else {
        table := EntryOther(h, on, log, kind, key, table, octets, packets, all, missed);
      }
    }
  }

  /** What the last record changes: newFlow is the store's judgement, isNew the truth. */
  lemma LastRecord(h: Hashing, on: set<Kind>, log: Log, kind: Kind, key: TableKey, table: Table, all: set<Quintuple>,
                   missed: nat)
    returns (newFlow: bool, isNew: bool)
    requires h.Valid() && WellFormed(log) && kind in on && log.Seen?
    requires table == TableOf(h, on, log.before, kind) && all == Flows(log.before, kind, key)
             && missed == Missed(h, on, log.before, kind, key)
    ensures TableOf(h, on, log, kind) == Updated(table, KeyOf(log.r.flow, kind), log.r, newFlow)
    ensures KeyOf(log.r.flow, kind) == key ==>
              (isNew <==> log.r.flow !in all) && (newFlow ==> isNew) && (key !in table ==> newFlow)
    ensures Missed(h, on, log, kind, key)
            == missed + if KeyOf(log.r.flow, kind) == key && isNew && !newFlow then 1 else 0
  {
    newFlow, isNew := !TakenForKnown(h, on, log.before, log.r.flow), log.r.flow !in all;
    if KeyOf(log.r.flow, kind) == key {
      isNew := Detected(h, on, log.before, kind, key, table, all, log.r.flow, newFlow);
    }
  }

  lemma {:induction false} TotalsMore(log: Log, kind: Kind, key: TableKey, octets: nat, packets: nat,
                                      all: set<Quintuple>, hit: bool)
    requires WellFormed(log) && log.Seen? && hit == (KeyOf(log.r.flow, kind) == key)
    requires octets == Octets(log.before, kind, key) && packets == Packets(log.before, kind, key)
             && all == Flows(log.before, kind, key)
    ensures Octets(log, kind, key) == octets + (if hit then log.r.octets else 0)
    ensures Packets(log, kind, key) == packets + (if hit then log.r.packets else 0)
    ensures Flows(log, kind, key) == all + (if hit then {log.r.flow} else {})
  {
  }

  /** A record with the key. */
  lemma EntryMore(h: Hashing, on: set<Kind>, log: Log, kind: Kind, key: TableKey,
                  table: Table, octets: nat, packets: nat, all: set<Quintuple>, missed: nat)
    returns (table': Table, octets': nat, packets': nat, all': set<Quintuple>, missed': nat)
    requires h.Valid() && WellFormed(log) && kind in on && log.Seen? && KeyOf(log.r.flow, kind) == key
    requires table == TableOf(h, on, log.before, kind) && all == Flows(log.before, kind, key)
             && missed == Missed(h, on, log.before, kind, key)
    requires octets == Octets(log.before, kind, key) && packets == Packets(log.before, kind, key)
    requires Accounts(table, key, octets, packets, |all|, missed) && |all| + 1 < U64
    ensures table' == TableOf(h, on, log, kind) && all' == Flows(log, kind, key)
            && missed' == Missed(h, on, log, kind, key)
    ensures octets' == Octets(log, kind, key) && packets' == Packets(log, kind, key)
    ensures Accounts(table', key, octets', packets', |all'|, missed') && |all'| <= |all| + 1
  {
    var r := log.r;
    var newFlow, isNew := LastRecord(h, on, log, kind, key, table, all, missed);
    TotalsMore(log, kind, key, octets, packets, all, true);
    FlowsGrow(all, r.flow);
    AccountsMore(table, key, octets, packets, |all|, missed, r, newFlow, isNew);
    table', octets', packets' := Updated(table, key, r, newFlow), octets + r.octets, packets + r.packets;
    all', missed' := all + {r.flow}, missed + if isNew && !newFlow then 1 else 0;
  }

  /** What is taken for new is new, and a key that is not in the table is taken for new. */
  lemma Detected(h: Hashing, on: set<Kind>, log: Log, kind: Kind, key: TableKey, table: Table, all: set<Quintuple>,
                 flow: Quintuple, newFlow: bool) returns (isNew: bool)
    requires h.Valid() && WellFormed(log) && kind in on && flow.Valid() && KeyOf(flow, kind) == key
    requires table == TableOf(h, on, log, kind) && all == Flows(log, kind, key)
             && newFlow == !TakenForKnown(h, on, log, flow)
    ensures isNew <==> flow !in all
    ensures newFlow ==> isNew
    ensures key !in table ==> newFlow
  {
    isNew := flow !in all;
    if !isNew { SeenIsKnown(h, on, log, kind, key, flow); }
  }

  /** A record with another key. */
  lemma EntryOther(h: Hashing, on: set<Kind>, log: Log, kind: Kind, key: TableKey,
                   table: Table, octets: nat, packets: nat, all: set<Quintuple>, missed: nat)
    returns (table': Table)
    requires h.Valid() && WellFormed(log) && kind in on && log.Seen? && KeyOf(log.r.flow, kind) != key
    requires table == TableOf(h, on, log.before, kind) && all == Flows(log.before, kind, key)
             && missed == Missed(h, on, log.before, kind, key)
    requires octets == Octets(log.before, kind, key) && packets == Packets(log.before, kind, key)
    requires Accounts(table, key, octets, packets, |all|, missed)
    ensures table' == TableOf(h, on, log, kind) && all == Flows(log, kind, key)
            && missed == Missed(h, on, log, kind, key)
    ensures octets == Octets(log, kind, key) && packets == Packets(log, kind, key)
    ensures Accounts(table', key, octets, packets, |all|, missed)
  {
    var newFlow, isNew := LastRecord(h, on, log, kind, key, table, all, missed);
    TotalsMore(log, kind, key, octets, packets, all, false);
    AccountsOther(table, key, octets, packets, |all|, missed, KeyOf(log.r.flow, kind), log.r, newFlow);
    table' := Updated(table, KeyOf(log.r.flow, kind), log.r, newFlow);
  }

  lemma FlowsGrow(flows: set<Quintuple>, flow: Quintuple)
    ensures |flows + {flow}| == |flows| + if flow in flows then 0 else 1
  {
    if flow in flows { assert flows + {flow} == flows; }
  }

  /** No flow is counted twice; the count is exact when the filter never reported a new flow as known. */
  lemma {:induction false} FlowCountIs(h: Hashing, on: set<Kind>, log: Log, kind: Kind, key: TableKey)
    requires h.Valid() && WellFormed(log) && kind in on && Count(log) < U64 && key in TableOf(h, on, log, kind)
    ensures 1 <= TableOf(h, on, log, kind)[key].flows <= |Flows(log, kind, key)|
    ensures NoFalsePositive(h, log) ==> TableOf(h, on, log, kind)[key].flows == |Flows(log, kind, key)|
  {
    var table, octets, packets, all, missed := EntriesAre(h, on, log, kind, key);
    if NoFalsePositive(h, log) { NothingMissed(h, on, log, kind, key); }
  }

  /** The filter told every new flow from the known ones. */
  ghost predicate NoFalsePositive(h: Hashing, log: Log)
    requires h.Valid() && WellFormed(log)
  {
    log.Seen? ==>
      && (h.Indexes(log.r.flow.Data()) <= Filter(h, log.before)
          ==> log.r.flow in Flows(log.before, SrcIp, KeyOf(log.r.flow, SrcIp)))
      && NoFalsePositive(h, log.before)
  }

  lemma {:induction false} NothingMissed(h: Hashing, on: set<Kind>, log: Log, kind: Kind, key: TableKey)
    requires h.Valid() && WellFormed(log) && NoFalsePositive(h, log)
    ensures Missed(h, on, log, kind, key) == 0
  {
    if log.Seen? {
      NothingMissed(h, on, log.before, kind, key);
      if log.r.flow in Flows(log.before, SrcIp, KeyOf(log.r.flow, SrcIp)) {
        FlowsHaveKey(log.before, SrcIp, KeyOf(log.r.flow, SrcIp), log.r.flow);
      }
    }
  }

  // ---------------------------------------------------------------- the store

  class CountStore {
    const bfilter: BloomFilter
    const countPer: set<Kind>
    var srcIpCounts: Table
    var dstIpCounts: Table
    var srcPortCounts: Table
    var dstPortCounts: Table

    function Counts(kind: Kind): Table
      reads this
    {
      match kind
      case SrcIp => srcIpCounts
      case DstIp => dstIpCounts
      case SrcPort => srcPortCounts
      case DstPort => dstPortCounts
    }

    /** The filter and the tables are what the log makes them. */
    ghost predicate Holds(log: Log)
      reads this, bfilter.filter, bfilter.filter.bitmap
    {
      && bfilter.Valid() && WellFormed(log)
      && bfilter.Bits() == Filter(bfilter.hashing, log)
      && forall kind :: Counts(kind) == TableOf(bfilter.hashing, countPer, log, kind)
    }

    constructor (shared: BloomFilter, on: set<Kind>)
      requires shared.Valid()
      modifies shared.filter.bitmap
      ensures bfilter == shared && countPer == on && Holds(Nothing)
    {
      bfilter, countPer := shared, on;
      srcIpCounts, dstIpCounts, srcPortCounts, dstPortCounts := map[], map[], map[], map[];
      new;
      bfilter.Clear();
    }

    /** Whether the 5-tuple counts as a new flow; the tables are searched to detect collisions in the filter. */
    method IsNew(flow: Quintuple, ghost log: Log) returns (newFlow: bool)
      requires Holds(log) && flow.Valid()
      modifies bfilter.filter.bitmap
      ensures bfilter.Valid() && bfilter.Bits() == old(bfilter.Bits()) + bfilter.hashing.Indexes(flow.Data())
      ensures newFlow <==> !TakenForKnown(bfilter.hashing, countPer, log, flow)
    {
      assert forall kind :: kind in countPer ==> Counts(kind) == TableOf(bfilter.hashing, countPer, log, kind);
      var known := bfilter.TestBeforeInsert(flow.Data());
      newFlow := !known;
      if SrcIp in countPer && KeyOf(flow, SrcIp) !in Counts(SrcIp) { newFlow := true; }
      if DstIp in countPer && KeyOf(flow, DstIp) !in Counts(DstIp) { newFlow := true; }
      if SrcPort in countPer && KeyOf(flow, SrcPort) !in Counts(SrcPort) { newFlow := true; }
      if DstPort in countPer && KeyOf(flow, DstPort) !in Counts(DstPort) { newFlow := true; }
      assert newFlow <==> !known || exists kind :: kind in countPer && KeyOf(flow, kind) !in Counts(kind);
    }

    function Next(table: Table, kind: Kind, r: Record, newFlow: bool): Table
      requires r.flow.Valid()
    {
      if kind in countPer then Updated(table, KeyOf(r.flow, kind), r, newFlow) else table
    }

    /** Every table that is kept gets its update. */
    method UpdateTables(r: Record, newFlow: bool)
      requires r.flow.Valid()
      modifies this
      ensures srcIpCounts == Next(old(srcIpCounts), SrcIp, r, newFlow)
      ensures dstIpCounts == Next(old(dstIpCounts), DstIp, r, newFlow)
      ensures srcPortCounts == Next(old(srcPortCounts), SrcPort, r, newFlow)
      ensures dstPortCounts == Next(old(dstPortCounts), DstPort, r, newFlow)
    {
      if SrcIp in countPer { srcIpCounts := Updated(srcIpCounts, KeyOf(r.flow, SrcIp), r, newFlow); }
      if DstIp in countPer { dstIpCounts := Updated(dstIpCounts, KeyOf(r.flow, DstIp), r, newFlow); }
      if SrcPort in countPer { srcPortCounts := Updated(srcPortCounts, KeyOf(r.flow, SrcPort), r, newFlow); }
      if DstPort in countPer { dstPortCounts := Updated(dstPortCounts, KeyOf(r.flow, DstPort), r, newFlow); }
    }

    method RecordEnd(r: Record, ghost log: Log)
      requires Holds(log) && r.flow.Valid()
      modifies this, bfilter.filter.bitmap
      ensures Holds(Seen(log, r))
    {
      ghost var h, on := bfilter.hashing, countPer;
      var newFlow := IsNew(r.flow, log);
      UpdateTables(r, newFlow);
      forall kind
        ensures Counts(kind) == TableOf(h, on, Seen(log, r), kind)
      {
        assert old(Counts(kind)) == TableOf(h, on, log, kind);
        if kind !in on { NotKept(h, on, log, kind); }
      }
    }
  }

  lemma {:induction false} NotKept(h: Hashing, on: set<Kind>, log: Log, kind: Kind)
    requires h.Valid() && WellFormed(log) && kind !in on
    ensures TableOf(h, on, log, kind) == map[]
  {
  }
}
