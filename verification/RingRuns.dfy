/**
 * Whole runs of the packet ring: the collector writes and removes, any number
 * of detection modules read through cursors of their own.
 */
module RingRuns {
  import opened Bytes
  import opened PacketRing

  datatype Act = Write(data: Packet) | Read(cursor: nat) | Remove

  /**
   * accepted: the packets writePacket stored; got[i]: what module i was handed;
   * removed: what the collector's own cursor passed over; overtaken: the modules that
   * some packet was removed in front of.
   */
  datatype State = State(ring: Ring, cursors: seq<Cursor>,
                         accepted: seq<Packet>, got: seq<seq<Packet>>, removed: seq<Packet>, overtaken: set<nat>)

  function Init(mem: seq<byte>, modules: nat): State {
    State(Ring(mem, 0, Cursor(0, 0), false), seq(modules, _ => Cursor(0, 0)), [], seq(modules, _ => []), [], {})
  }

  /**
   * The discipline under which the ring is used: no wiping write, and nothing is read
   * or removed that was not stored.
   */
  ghost predicate Enabled(s: State, act: Act) {
    match act
    case Write(data) => |data| < U16 && s.ring.InBounds() && !Wipes(s.ring, data)
    case Read(i) => i < |s.cursors| == |s.got| && |s.got[i]| < |s.accepted|
    case Remove => |s.removed| < |s.accepted|
  }

  /** The modules that have not read the packet to be removed next. */
  function Behind(s: State): set<nat> {
    set i: nat | i < |s.got| && |s.got[i]| <= |s.removed|
  }

  function Step(s: State, act: Act): State {
    match act
    case Write(data) =>
      if |data| < U16 && s.ring.InBounds() then
        var (ring, ok) := PacketRing.Write(s.ring, data);
        s.(ring := ring, accepted := if ok then s.accepted + [data] else s.accepted)
      else s
    case Read(i) =>
      if i < |s.cursors| == |s.got| && 2 <= |s.ring.mem| && s.cursors[i].Next() <= |s.ring.mem| then
        var c := Advance(s.ring.mem, s.cursors[i]).0;
        s.(cursors := s.cursors[i := c], got := s.got[i := s.got[i] + [Handed(s.ring.mem, c)]])
      else s
    case Remove =>
      if 2 <= |s.ring.mem| && s.ring.InBounds() then
        var ring := Proceed(s.ring);
        s.(ring := ring, removed := s.removed + [Handed(s.ring.mem, ring.reader)], overtaken := s.overtaken + Behind(s))
      else s
  }

  function Exec(s: State, acts: seq<Act>): State
    decreases |acts|
  {
    if acts == [] then s else Exec(Step(s, acts[0]), acts[1..])
  }

  ghost predicate Allowed(s: State, acts: seq<Act>)
    decreases |acts|
  {
    acts == [] || (Enabled(s, acts[0]) && Allowed(Step(s, acts[0]), acts[1..]))
  }

  // ---------------------------------------------------------------- invariant

  ghost predicate Module(s: State, before: seq<Packet>, after: seq<Packet>, w: nat, i: nat)
    requires i < |s.cursors| == |s.got|
  {
    && |s.removed| <= |s.got[i]|
    && s.got[i] <= s.accepted
    && Ahead(s.ring, before, after, w, s.cursors[i], |s.got[i]| - |s.removed|)
  }

  ghost predicate Laid(s: State, before: seq<Packet>, after: seq<Packet>, w: nat) {
    && |s.cursors| == |s.got|
    && s.removed <= s.accepted
    && before + after == s.accepted[|s.removed|..]
    && Layout(s.ring, before, after, w)
    && forall i :: 0 <= i < |s.cursors| && i !in s.overtaken ==> Module(s, before, after, w, i)
  }

  ghost predicate Inv(s: State) {
    exists before, after, w :: Laid(s, before, after, w)
  }

  lemma InitInv(mem: seq<byte>, modules: nat)
    ensures Inv(Init(mem, modules))
  {
    var s := Init(mem, modules);
    InitLayout(s.ring);
    forall i | 0 <= i < modules
      ensures Module(s, [], [], 0, i)
    {
      assert s.cursors[i] == Cursor(0, 0) && s.got[i] == [];
    }
    assert Laid(s, [], [], 0);
  }

  lemma InitLayout(r: Ring)
    requires r.wp == 0 && r.reader == Cursor(0, 0) && !r.writeBeforeRead
    ensures Layout(r, [], [], 0) && Ahead(r, [], [], 0, Cursor(0, 0), 0)
  {
    var none: seq<Packet> := [];
    assert none[..0] == none && none[0..] == none;
    NoPackets(r.mem, 0);
  }

  lemma {:induction false} NoPackets(m: seq<byte>, p: nat)
    ensures Chain(m, p, [], p)
  {
  }

  lemma WriteInv(s: State, data: Packet)
    requires Inv(s) && Enabled(s, Write(data))
    ensures Inv(Step(s, Write(data)))
  {
    var before, after, w :| Laid(s, before, after, w);
    var before', after', w' := WriteGrows(s.ring, before, after, w, data);
    var s' := Step(s, Write(data));
    assert s'.accepted[|s.removed|..]
        == s.accepted[|s.removed|..] + if PacketRing.Write(s.ring, data).1 then [data] else [];
    forall i | 0 <= i < |s'.cursors| && i !in s'.overtaken
      ensures Module(s', before', after', w', i)
    {
      assert Module(s, before, after, w, i);
    }
    assert Laid(s', before', after', w');
  }

  lemma NextOf<T>(s: seq<T>, r: nat, k: nat)
    requires r <= |s| && k < |s| - r
    ensures s[r..][k] == s[r + k] && s[..r + k] + [s[r + k]] <= s
    ensures s[r..][1..] == s[r + 1..]
  {
  }

  lemma ReadDue(s: State, before: seq<Packet>, after: seq<Packet>, w: nat, i: nat)
    requires i < |s.cursors| == |s.got| && |s.got[i]| < |s.accepted|
    requires Module(s, before, after, w, i) && Layout(s.ring, before, after, w)
    requires |s.removed| <= |s.accepted| && before + after == s.accepted[|s.removed|..]
    ensures 2 <= |s.ring.mem| && s.cursors[i].Next() <= |s.ring.mem|
    ensures var c := Advance(s.ring.mem, s.cursors[i]).0;
            Handed(s.ring.mem, c) == s.accepted[|s.got[i]|]
            && Ahead(s.ring, before, after, w, c, |s.got[i]| + 1 - |s.removed|)
  {
    var k := |s.got[i]| - |s.removed|;
    NextOf(s.accepted, |s.removed|, k);
    ReadsDue(s.ring, before, after, w, s.cursors[i], k);
  }

  lemma ReadModule(s: State, s': State, before: seq<Packet>, after: seq<Packet>, w: nat, i: nat)
    requires Laid(s, before, after, w) && Enabled(s, Read(i)) && s' == Step(s, Read(i)) && i !in s.overtaken
    ensures |s'.cursors| == |s'.got| == |s.got|
    ensures s'.got[i] == s.got[i] + [s.accepted[|s.got[i]|]]
    ensures Module(s', before, after, w, i)
  {
    assert Module(s, before, after, w, i);
    ReadDue(s, before, after, w, i);
    ReadHands(s, i);
    GotNext(s, s', before, after, w, i);
  }

  lemma ReadHands(s: State, i: nat)
    requires i < |s.cursors| == |s.got| && 2 <= |s.ring.mem| && s.cursors[i].Next() <= |s.ring.mem|
    ensures var c := Advance(s.ring.mem, s.cursors[i]).0;
            Step(s, Read(i)) == s.(cursors := s.cursors[i := c], got := s.got[i := s.got[i] + [Handed(s.ring.mem, c)]])
  {
  }

  lemma GotNext(s: State, s': State, before: seq<Packet>, after: seq<Packet>, w: nat, i: nat)
    requires i < |s.cursors| == |s.got| == |s'.cursors| == |s'.got| && |s.got[i]| < |s.accepted|
    requires |s.removed| <= |s.got[i]| && s.got[i] <= s.accepted
    requires s'.ring == s.ring && s'.accepted == s.accepted && s'.removed == s.removed
    requires s'.got[i] == s.got[i] + [s.accepted[|s.got[i]|]]
    requires Ahead(s.ring, before, after, w, s'.cursors[i], |s.got[i]| + 1 - |s.removed|)
    ensures Module(s', before, after, w, i)
  {
    NextOf(s.accepted, |s.removed|, |s.got[i]| - |s.removed|);
  }

  lemma ReadLaid(s: State, s': State, before: seq<Packet>, after: seq<Packet>, w: nat, i: nat)
    requires Laid(s, before, after, w) && i < |s.cursors|
    requires |s'.cursors| == |s'.got| == |s.got|
    requires s' == s.(cursors := s.cursors[i := s'.cursors[i]], got := s.got[i := s'.got[i]])
    requires i !in s.overtaken ==> Module(s', before, after, w, i)
    ensures Laid(s', before, after, w)
  {
    forall j | 0 <= j < |s'.cursors| && j !in s'.overtaken
      ensures Module(s', before, after, w, j)
    {
      if j != i { ModuleFrame(s, s', before, after, w, j); }
    }
  }

  lemma ModuleFrame(s: State, s': State, before: seq<Packet>, after: seq<Packet>, w: nat, j: nat)
    requires j < |s.cursors| == |s.got| == |s'.cursors| == |s'.got| && Module(s, before, after, w, j)
    requires s'.ring == s.ring && s'.accepted == s.accepted && s'.removed == s.removed
    requires s'.cursors[j] == s.cursors[j] && s'.got[j] == s.got[j]
    ensures Module(s', before, after, w, j)
  {
  }

  lemma ReadTouches(s: State, s': State, i: nat)
    requires |s.cursors| == |s.got| && Enabled(s, Read(i)) && s' == Step(s, Read(i))
    ensures |s'.cursors| == |s'.got| == |s.got|
    ensures s' == s.(cursors := s.cursors[i := s'.cursors[i]], got := s.got[i := s'.got[i]])
  {
  }

  lemma ReadInv(s: State, i: nat)
    requires Inv(s) && Enabled(s, Read(i))
    ensures Inv(Step(s, Read(i))) && |Step(s, Read(i)).got| == |s.got|
    ensures i !in s.overtaken ==> Step(s, Read(i)).got[i] == s.got[i] + [s.accepted[|s.got[i]|]]
  {
    var before, after, w :| Laid(s, before, after, w);
    var s' := Step(s, Read(i));
    if i !in s.overtaken { ReadModule(s, s', before, after, w, i); }
    ReadTouches(s, s', i);
    ReadLaid(s, s', before, after, w, i);
  }

  lemma RemoveTouches(s: State)
    requires 2 <= |s.ring.mem| && s.ring.InBounds()
    ensures var ring := Proceed(s.ring);
            Step(s, Remove) == s.(ring := ring, removed := s.removed + [Handed(s.ring.mem, ring.reader)],
                                  overtaken := s.overtaken + Behind(s))
  {
  }

  lemma ModuleDrops(s: State, s': State, before: seq<Packet>, after: seq<Packet>, w: nat,
                    before': seq<Packet>, after': seq<Packet>, w': nat, j: nat)
    requires j < |s.cursors| == |s.got| && Module(s, before, after, w, j) && |s.removed| < |s.got[j]|
    requires s' == s.(ring := s'.ring, removed := s'.removed, overtaken := s'.overtaken)
             && |s'.removed| == |s.removed| + 1
    requires Nearer(s.ring, before, after, w, s'.ring, before', after', w')
    ensures Module(s', before', after', w', j)
  {
    assert Ahead(s.ring, before, after, w, s.cursors[j], |s.got[j]| - |s.removed|);
  }

  lemma ModulesDrop(s: State, s': State, before: seq<Packet>, after: seq<Packet>, w: nat,
                    before': seq<Packet>, after': seq<Packet>, w': nat)
    requires Laid(s, before, after, w) && |s'.removed| == |s.removed| + 1
    requires s' == s.(ring := s'.ring, removed := s'.removed, overtaken := s.overtaken + Behind(s))
    requires Nearer(s.ring, before, after, w, s'.ring, before', after', w')
    ensures forall j :: 0 <= j < |s'.cursors| && j !in s'.overtaken ==> Module(s', before', after', w', j)
  {
    forall j | 0 <= j < |s'.cursors| && j !in s'.overtaken
      ensures Module(s', before', after', w', j)
    {
      assert j !in Behind(s);
      ModuleDrops(s, s', before, after, w, before', after', w', j);
    }
  }

  lemma RemoveLaid(s: State, before: seq<Packet>, after: seq<Packet>, w: nat)
    returns (before': seq<Packet>, after': seq<Packet>, w': nat)
    requires Laid(s, before, after, w) && Enabled(s, Remove)
    ensures Laid(Step(s, Remove), before', after', w')
    ensures Step(s, Remove).removed == s.removed + [s.accepted[|s.removed|]]
  {
    NextOf(s.accepted, |s.removed|, 0);
    before', after', w' := ProceedDrops(s.ring, before, after, w);
    RemoveTouches(s);
    ModulesDrop(s, Step(s, Remove), before, after, w, before', after', w');
  }

  lemma RemoveInv(s: State)
    requires Inv(s) && Enabled(s, Remove)
    ensures Inv(Step(s, Remove))
    ensures Step(s, Remove).removed == s.removed + [s.accepted[|s.removed|]]
  {
    var before, after, w :| Laid(s, before, after, w);
    var before', after', w' := RemoveLaid(s, before, after, w);
  }

  lemma StepInv(s: State, act: Act)
    requires Inv(s) && Enabled(s, act)
    ensures Inv(Step(s, act))
  {
    match act
    case Write(data) => WriteInv(s, data);
    case Read(i) => ReadInv(s, i);
    case Remove => RemoveInv(s);
  }

  lemma {:induction false} ExecInv(s: State, acts: seq<Act>)
    requires Inv(s) && Allowed(s, acts)
    ensures Inv(Exec(s, acts))
    decreases |acts|
  {
    if acts != [] {
      StepInv(s, acts[0]);
      ExecInv(Step(s, acts[0]), acts[1..]);
    }
  }

  /**
   * First in, first out, over every run and for every cursor that was never overtaken:
   * each module has been handed exactly the first stored packets, octet for octet and in
   * order, and so has the collector's own cursor.
   */
  lemma {:induction false} FirstInFirstOut(mem: seq<byte>, modules: nat, acts: seq<Act>)
    requires Allowed(Init(mem, modules), acts)
    ensures var s := Exec(Init(mem, modules), acts);
            && |s.got| == modules
            && (forall i :: 0 <= i < modules && i !in s.overtaken ==> s.got[i] <= s.accepted)
            && s.removed <= s.accepted
            && Holds(s.ring, s.accepted[|s.removed|..])
  {
    InitInv(mem, modules);
    ExecInv(Init(mem, modules), acts);
    ModulesConstant(Init(mem, modules), acts);
    var s := Exec(Init(mem, modules), acts);
    var before, after, w :| Laid(s, before, after, w);
    forall i | 0 <= i < modules && i !in s.overtaken
      ensures s.got[i] <= s.accepted
    {
      assert Module(s, before, after, w, i);
    }
  }

  /** Every removal waits until all modules have read the packet. */
  ghost predicate Waits(s: State, acts: seq<Act>)
    decreases |acts|
  {
    acts == [] || ((acts[0] == Remove ==> Behind(s) == {}) && Waits(Step(s, acts[0]), acts[1..]))
  }

  /** A module is overtaken in no other way than by a removal that did not wait. */
  lemma {:induction false} NobodyOvertaken(s: State, acts: seq<Act>)
    requires s.overtaken == {} && Waits(s, acts)
    ensures Exec(s, acts).overtaken == {}
    decreases |acts|
  {
    if acts != [] { NobodyOvertaken(Step(s, acts[0]), acts[1..]); }
  }

  lemma GotFirst(s: State, i: nat)
    requires Inv(s) && i < |s.got| && i !in s.overtaken
    ensures |s.removed| <= |s.got[i]| && s.got[i] <= s.accepted
  {
    var before, after, w :| Laid(s, before, after, w);
    assert Module(s, before, after, w, i);
  }

  lemma {:induction false} ModulesConstant(s: State, acts: seq<Act>)
    ensures |Exec(s, acts).got| == |s.got|
    decreases |acts|
  {
    if acts != [] { ModulesConstant(Step(s, acts[0]), acts[1..]); }
  }

  // ---------------------------------------------------------------- which packets a run stores

  /** In every run a packet that does not wipe is stored exactly if there is room for it. */
  lemma {:induction false} StoresIff(mem: seq<byte>, modules: nat, acts: seq<Act>, d: Packet)
    requires Allowed(Init(mem, modules), acts) && 0 < |d|
    requires Enabled(Exec(Init(mem, modules), acts), Write(d))
    ensures var s := Exec(Init(mem, modules), acts);
            Step(s, Write(d)).accepted == if Room(s.ring, |d|) then s.accepted + [d] else s.accepted
  {
    InitInv(mem, modules);
    ExecInv(Init(mem, modules), acts);
    var s := Exec(Init(mem, modules), acts);
    var before, after, w :| Laid(s, before, after, w);
    StoredIff(s.ring, before, after, w, d);
  }

  lemma EmptiedRing(s: State)
    requires Inv(s) && |s.removed| == |s.accepted|
    ensures s.ring.InBounds()
    ensures if s.ring.writeBeforeRead then s.ring.wp == 0 && AtMark(s.ring)
            else s.ring.reader.Next() == s.ring.wp && (s.ring.reader.pos < s.ring.wp || s.ring.wp == 0)
  {
    var before, after, w :| Laid(s, before, after, w);
    assert before == [] && after == [];
    MarkMeansNothingBefore(s.ring, before, after, w);
  }

  /**
   * Once everything stored was removed, a packet is never wiping, and it is stored if and only
   * if it ends short of the end of the block where it stands or fits below the collector's cursor.
   */
  lemma {:induction false} EmptiedStores(mem: seq<byte>, modules: nat, acts: seq<Act>, d: Packet)
    requires Allowed(Init(mem, modules), acts) && 0 < |d| < U16
    requires var s := Exec(Init(mem, modules), acts); |s.removed| == |s.accepted|
    ensures var s := Exec(Init(mem, modules), acts);
            && Enabled(s, Write(d))
            && (Step(s, Write(d)).accepted == s.accepted + [d] <==>
                  || (2 + |d| <= s.ring.reader.pos && 2 + |d| < |mem|)
                  || (!s.ring.writeBeforeRead && s.ring.wp + 2 + |d| < |mem|))
  {
    InitInv(mem, modules);
    ExecInv(Init(mem, modules), acts);
    MemoryStays(Init(mem, modules), acts);
    var s := Exec(Init(mem, modules), acts);
    EmptiedRing(s);
    StoresIff(mem, modules, acts, d);
    ClearIs(s.ring, s.ring.wp, |d|);
    ClearIs(s.ring, 0, |d|);
  }

  lemma {:induction false} MemoryStays(s: State, acts: seq<Act>)
    ensures |Exec(s, acts).ring.mem| == |s.ring.mem|
    decreases |acts|
  {
    if acts != [] { MemoryStays(Step(s, acts[0]), acts[1..]); }
  }

  // ---------------------------------------------------------------- the wiping write does occur

  function Filled(n: nat): (d: Packet)
    ensures |d| == n
  {
    seq(n, _ => 7)
  }

  lemma {:induction false} Snoc(s: State, acts: seq<Act>, act: Act)
    requires Allowed(s, acts) && Enabled(Exec(s, acts), act)
    ensures Allowed(s, acts + [act]) && Exec(s, acts + [act]) == Step(Exec(s, acts), act)
    decreases |acts|
  {
    if acts == [] {
      assert [act][1..] == [];
    } else {
      Snoc(Step(s, acts[0]), acts[1..], act);
      assert (acts + [act])[1..] == acts[1..] + [act];
    }
  }

  /** Some run under the discipline leads from an unused block to s. */
  ghost predicate Reachable(mem: seq<byte>, modules: nat, s: State) {
    exists acts :: Allowed(Init(mem, modules), acts) && Exec(Init(mem, modules), acts) == s
  }

  lemma Reaches(mem: seq<byte>, modules: nat, s: State, act: Act)
    requires Reachable(mem, modules, s) && Enabled(s, act)
    ensures Reachable(mem, modules, Step(s, act))
  {
    var acts :| Allowed(Init(mem, modules), acts) && Exec(Init(mem, modules), acts) == s;
    Snoc(Init(mem, modules), acts, act);
  }

  /** While the writer has not wrapped, removing moves the collector's cursor to the next record. */
  lemma RemoveInOrder(s: State)
    requires Inv(s) && Enabled(s, Remove) && !s.ring.writeBeforeRead
    ensures Inv(Step(s, Remove))
    ensures Step(s, Remove).ring == s.ring.(reader := Cursor(s.ring.reader.Next() + 2, |s.accepted[|s.removed|]|))
  {
    var before, after, w :| Laid(s, before, after, w);
    assert before + after == before;
    assert before[0] == s.accepted[|s.removed|];
    ProceedBefore(s.ring, before, after, w);
    RemoveInv(s);
  }

  lemma StoredInPlace(s: State, d: Packet)
    requires s.ring.InBounds() && !s.ring.writeBeforeRead && 0 < |d| < U16 && s.ring.wp + |d| + 2 < |s.ring.mem|
    ensures Enabled(s, Write(d))
    ensures var s' := Step(s, Write(d));
            && s'.ring == s.ring.(mem := s'.ring.mem, wp := s.ring.wp + 2 + |d|) && |s'.ring.mem| == |s.ring.mem|
            && s' == s.(ring := s'.ring, accepted := s.accepted + [d])
  {
  }

  /**
   * A block of thirty octets with n packets of five octets stored, none of them wrapped, g of
   * them read and r removed.
   */
  ghost predicate Fives(s: State, n: nat, g: nat, r: nat) {
    && s.ring.InBounds() && !s.ring.writeBeforeRead && |s.ring.mem| == 30
    && s.ring.wp == 7 * n
    && s.ring.reader.Next() == 7 * r && (r > 0 ==> s.ring.reader.packetSize == 5)
    && |s.accepted| == n && (forall d :: d in s.accepted ==> |d| == 5)
    && |s.removed| == r && |s.got| == 1 == |s.cursors| && |s.got[0]| == g && s.overtaken == {}
  }

  lemma StoreFive(s: State, n: nat)
    requires Fives(s, n, 0, 0) && n < 3
    ensures Enabled(s, Write(Filled(5))) && Fives(Step(s, Write(Filled(5))), n + 1, 0, 0)
  {
    StoredInPlace(s, Filled(5));
    FivesGrow(s, Step(s, Write(Filled(5))), Filled(5), n);
  }

  lemma FivesGrow(s: State, s': State, d: Packet, n: nat)
    requires Fives(s, n, 0, 0) && n < 3 && |d| == 5
    requires s'.ring == s.ring.(mem := s'.ring.mem, wp := s.ring.wp + 7) && |s'.ring.mem| == 30
    requires s' == s.(ring := s'.ring, accepted := s.accepted + [d])
    ensures Fives(s', n + 1, 0, 0)
  {
  }

  lemma ReadFive(s: State, r: nat)
    requires Inv(s) && Fives(s, 3, r, r) && r < 3
    ensures Enabled(s, Read(0)) && Inv(Step(s, Read(0))) && Fives(Step(s, Read(0)), 3, r + 1, r)
  {
    ReadInv(s, 0);
    ReadTouches(s, Step(s, Read(0)), 0);
  }

  lemma RemoveFive(s: State, r: nat)
    requires Inv(s) && Fives(s, 3, r + 1, r) && r < 3
    ensures Enabled(s, Remove) && Inv(Step(s, Remove)) && Fives(Step(s, Remove), 3, r + 1, r + 1)
  {
    RemoveInOrder(s);
    RemoveInv(s);
    assert Behind(s) == {};
    FivesDrop(s, Step(s, Remove), r);
  }

  lemma FivesDrop(s: State, s': State, r: nat)
    requires Fives(s, 3, r + 1, r) && r < 3
    requires s'.ring == s.ring.(reader := Cursor(s.ring.reader.Next() + 2, |s.accepted[r]|)) && |s'.removed| == r + 1
    requires s' == s.(ring := s'.ring, removed := s'.removed)
    ensures Fives(s', 3, r + 1, r + 1)
  {
    assert s.accepted[r] in s.accepted;
  }

  /** With two of three removed, a packet of seven octets goes to the start of the block, in front of the unread one. */
  lemma Wrapped(s: State)
    requires Inv(s) && Fives(s, 3, 2, 2)
    ensures var s' := Step(s, Write(Filled(7)));
            Enabled(s, Write(Filled(7))) && Inv(s') && Wipes(s'.ring, Filled(20))
  {
    WriteInv(s, Filled(7));
    var s' := Step(s, Write(Filled(7)));
    assert s'.ring.wp == 9 && s'.ring.writeBeforeRead && s'.accepted == s.accepted + [Filled(7)];
    var before, after, w :| Laid(s', before, after, w);
    if before == [] {
      assert before + after == after;
      assert |after| == 2 && after[0] == s'.accepted[2] == s.accepted[2];
      ChainEnd(s'.ring.mem, 7, after[1..], 9);
    }
    MarkMeansNothingBefore(s'.ring, before, after, w);
  }

  /** The wiping write is not hypothetical: eight permitted steps on a block of thirty octets lead to one. */
  lemma WipeOccurs(mem: seq<byte>) returns (s: State)
    requires |mem| == 30
    ensures Reachable(mem, 1, s)
    ensures s.ring.InBounds() && Wipes(s.ring, Filled(20)) && |s.removed| <= |s.accepted|
    ensures Holds(s.ring, s.accepted[|s.removed|..])
    ensures !Holds(PacketRing.Write(s.ring, Filled(20)).0, s.accepted[|s.removed|..])
  {
    s := Init(mem, 1);
    InitInv(mem, 1);
    assert Allowed(s, []) && Exec(s, []) == s;
    for n := 0 to 3
      invariant Inv(s) && Fives(s, n, 0, 0) && Reachable(mem, 1, s)
    {
      StoreFive(s, n);
      WriteInv(s, Filled(5));
      Reaches(mem, 1, s, Write(Filled(5)));
      s := Step(s, Write(Filled(5)));
    }
    for r := 0 to 2
      invariant Inv(s) && Fives(s, 3, r, r) && Reachable(mem, 1, s)
    {
      ReadFive(s, r);
      Reaches(mem, 1, s, Read(0));
      s := Step(s, Read(0));
      RemoveFive(s, r);
      Reaches(mem, 1, s, Remove);
      s := Step(s, Remove);
    }
    Wrapped(s);
    Reaches(mem, 1, s, Write(Filled(7)));
    s := Step(s, Write(Filled(7)));
    var before, after, w :| Laid(s, before, after, w);
    WipeLoses(s.ring, before, after, w, Filled(20));
  }
}
