/**
 * The module-side record queue of UnbufferedFilesInputPolicy: the parser thread
 * assembles records under recordMutex, the test thread takes them out one by one.
 */
module RecordQueue {
  import Bytes

  const MAX_BUFFERS := 4096

  datatype Field = Field(id: int, octets: seq<int>)

  /** What the parser calls back with; starts: the answer recordStart gives for it. */
  datatype Record = Record(starts: bool, fields: seq<Field>)

  /** A Storage object, as far as the callbacks have filled it. */
  datatype Buffer = Buffer(valid: bool, fields: seq<Field>, ended: bool)

  datatype ParserPc =
    | Outside
    | Entered(r: Record)
    | Pushed(r: Record)
    | Starting(r: Record)
    | Filling(r: Record, k: nat)
    | Leaving

  datatype TesterPc = AtPacketLock | AtRecordMutex | Holding | Taken

  /** A record the parser came with, and how many buffers were waiting then. */
  datatype Arrival = Arrival(r: Record, waiting: nat)

  /** subscribed: idList; arrived, queued and received are history. */
  datatype State = State(subscribed: set<int>,
                         buffers: seq<Buffer>, packetLock: nat, recordMutex: nat,
                         parser: ParserPc, tester: TesterPc,
                         arrived: seq<Arrival>, queued: seq<Record>, received: seq<Buffer>, bufferErrors: nat)

  datatype Label = Arrive(r: Record) | GetBuffer | Announce | Start | AddField | End | Leave
                 | WaitRecord | LockMutex | TakeFront | UnlockMutex

  /** packetLock is locked once in the policy's constructor. */
  function Init(subscribed: set<int>): State {
    State(subscribed, [], 0, 1, Outside, AtPacketLock, [], [], [], 0)
  }

  predicate Enabled(s: State, l: Label) {
    match l
    case Arrive(r) => s.parser == Outside && s.recordMutex > 0
    case GetBuffer => s.parser.Entered?
    case Announce => s.parser.Pushed?
    case Start => s.parser.Starting?
    case AddField => s.parser.Filling? && s.parser.k < |s.parser.r.fields|
    case End => s.parser.Filling? && s.parser.k >= |s.parser.r.fields|
    case Leave => s.parser == Leaving
    case WaitRecord => s.tester == AtPacketLock && s.packetLock > 0
    case LockMutex => s.tester == AtRecordMutex && s.recordMutex > 0
    case TakeFront => s.tester == Holding
    case UnlockMutex => s.tester == Taken
  }

  /** isIdInList: an empty list subscribes to everything. */
  predicate Subscribed(subscribed: set<int>, id: int) {
    subscribed == {} || id in subscribed
  }

  /** The parser works on the object it pushed last. */
  function Update(buffers: seq<Buffer>, b: Buffer): seq<Buffer> {
    if buffers == [] then [] else buffers[..|buffers| - 1] + [b]
  }

  function Step(s: State, l: Label): State
    requires Enabled(s, l)
  {
    match l
    case Arrive(r) =>
      s.(recordMutex := s.recordMutex - 1, parser := Entered(r), arrived := s.arrived + [Arrival(r, |s.buffers|)])
    case GetBuffer =>
      if |s.buffers| >= MAX_BUFFERS then s.(bufferErrors := s.bufferErrors + 1, parser := Leaving)
      else s.(buffers := s.buffers + [Buffer(false, [], false)], queued := s.queued + [s.parser.r],
              parser := Pushed(s.parser.r))
    case Announce => s.(packetLock := s.packetLock + 1, parser := Starting(s.parser.r))
    case Start =>
      if s.parser.r.starts then
        s.(buffers := Update(s.buffers, Buffer(true, [], false)), parser := Filling(s.parser.r, 0))
      else s.(parser := Leaving)
    case AddField =>
      var f := s.parser.r.fields[s.parser.k];
      var s' := s.(parser := Filling(s.parser.r, s.parser.k + 1));
      if Subscribed(s.subscribed, f.id) && s.buffers != [] then
        var b := s.buffers[|s.buffers| - 1];
        s'.(buffers := Update(s.buffers, b.(fields := b.fields + [f])))
      else s'
    case End =>
      var s' := s.(parser := Leaving);
      if s.buffers != [] then s'.(buffers := Update(s.buffers, s.buffers[|s.buffers| - 1].(ended := true))) else s'
    case Leave => s.(recordMutex := s.recordMutex + 1, parser := Outside)
    case WaitRecord => s.(packetLock := s.packetLock - 1, tester := AtRecordMutex)
    case LockMutex => s.(recordMutex := s.recordMutex - 1, tester := Holding)
    case TakeFront =>
      if s.buffers == [] then s.(tester := Taken)
      else s.(received := s.received + [s.buffers[0]], buffers := s.buffers[1..], tester := Taken)
    case UnlockMutex => s.(recordMutex := s.recordMutex + 1, tester := AtPacketLock)
  }

  ghost predicate Run(s: State, ls: seq<Label>, s': State)
    decreases |ls|
  {
    if ls == [] then s' == s
    else Enabled(s, ls[0]) && Run(Step(s, ls[0]), ls[1..], s')
  }

  // ---------------------------------------------------------------- specification

  function Chosen(subscribed: set<int>, fields: seq<Field>): (r: seq<Field>)
    ensures |r| <= |fields|
  {
    if fields == [] then []
    else
      var last := fields[|fields| - 1];
      Chosen(subscribed, fields[..|fields| - 1]) + if Subscribed(subscribed, last.id) then [last] else []
  }

  /** A field is chosen exactly if its id is subscribed to, or if no ids are. */
  lemma {:induction false} ChosenAre(subscribed: set<int>, fields: seq<Field>, f: Field)
    ensures multiset(Chosen(subscribed, fields))[f]
            == if subscribed == {} || f.id in subscribed then multiset(fields)[f] else 0
    decreases |fields|
  {
    if fields != [] {
      var front, last := fields[..|fields| - 1], fields[|fields| - 1];
      ChosenAre(subscribed, front, f);
      assert fields == front + [last];
    }
  }

  /** In the order of the record. */
  lemma {:induction false} ChosenJoin(subscribed: set<int>, a: seq<Field>, b: seq<Field>)
    ensures Chosen(subscribed, a + b) == Chosen(subscribed, a) + Chosen(subscribed, b)
    decreases |b|
  {
    if b == [] {
      assert a + b == a;
    } else {
      var front, last := b[..|b| - 1], b[|b| - 1];
      ChosenJoin(subscribed, a, front);
      assert (a + b)[..|a + b| - 1] == a + front;
      Bytes.Assoc(Chosen(subscribed, a), Chosen(subscribed, front), if Subscribed(subscribed, last.id) then [last]
                  else []);
    }
  }

  /** The object a record turns into: its subscribed fields in order, or an invalid empty one. */
  function Assembled(subscribed: set<int>, r: Record): Buffer {
    if r.starts then Buffer(true, Chosen(subscribed, r.fields), true) else Buffer(false, [], false)
  }

  /** What the object under construction holds so far. */
  function Partly(s: State): Buffer {
    match s.parser
    case Filling(r, k) =>
      if k <= |r.fields| then Buffer(true, Chosen(s.subscribed, r.fields[..k]), false) else Buffer(false, [], false)
    case _ => Buffer(false, [], false)
  }

  predicate Building(s: State) {
    s.parser.Pushed? || s.parser.Starting? || s.parser.Filling?
  }

  ghost predicate Sound(s: State) {
    && s.packetLock + (if s.tester == AtRecordMutex || s.tester == Holding then 1 else 0)
                    + (if s.parser.Pushed? then 1 else 0) == |s.buffers|
    && s.recordMutex + (if s.parser == Outside then 0 else 1)
       + (if s.tester == Holding || s.tester == Taken then 1 else 0) == 1
    && |s.buffers| <= MAX_BUFFERS
    && (s.parser.Filling? ==> s.parser.k <= |s.parser.r.fields| && s.parser.r.starts)
  }

  /** Everything taken or waiting is a complete record in arrival order, except the one being built. */
  ghost predicate Ordered(s: State) {
    var all := s.received + s.buffers;
    && |all| == |s.queued|
    && (Building(s) ==> s.buffers != [] && s.queued[|s.queued| - 1] == s.parser.r && all[|all| - 1] == Partly(s))
    && forall k :: 0 <= k < |all| - (if Building(s) then 1 else 0) ==> all[k] == Assembled(s.subscribed, s.queued[k])
  }

  lemma StepSound(s: State, l: Label)
    requires Sound(s) && Ordered(s) && Enabled(s, l)
    ensures Sound(Step(s, l))
  {
  }

  lemma TakeOrdered(s: State)
    requires Sound(s) && Ordered(s) && Enabled(s, TakeFront)
    ensures Ordered(Step(s, TakeFront))
  {
    var s' := Step(s, TakeFront);
    assert s.buffers != [];
    assert s'.received + s'.buffers == s.received + s.buffers;
  }

  lemma AddOrdered(s: State)
    requires Sound(s) && Ordered(s) && Enabled(s, AddField)
    ensures Ordered(Step(s, AddField))
  {
    var r, k := s.parser.r, s.parser.k;
    assert r.fields[..k + 1][..k] == r.fields[..k] && r.fields[..k + 1][k] == r.fields[k];
  }

  lemma GetOrdered(s: State)
    requires Sound(s) && Ordered(s) && Enabled(s, GetBuffer)
    ensures Ordered(Step(s, GetBuffer))
  {
    var s' := Step(s, GetBuffer);
    if |s.buffers| < MAX_BUFFERS {
      assert s'.received + s'.buffers == s.received + s.buffers + [Buffer(false, [], false)];
    }
  }

  lemma StartOrdered(s: State)
    requires Sound(s) && Ordered(s) && Enabled(s, Start)
    ensures Ordered(Step(s, Start))
  {
    assert s.parser.r.fields[..0] == [];
  }

  lemma EndOrdered(s: State)
    requires Sound(s) && Ordered(s) && Enabled(s, End)
    ensures Ordered(Step(s, End))
  {
    assert s.parser.r.fields[..s.parser.k] == s.parser.r.fields;
  }

  lemma StepOrdered(s: State, l: Label)
    requires Sound(s) && Ordered(s) && Enabled(s, l)
    ensures Ordered(Step(s, l))
  {
    match l
    case TakeFront => TakeOrdered(s);
    case AddField => AddOrdered(s);
    case GetBuffer => GetOrdered(s);
    case Start => StartOrdered(s);
    case End => EndOrdered(s);
    case _ =>
  }

  /** The records of the arrivals that found a free place. */
  function Kept(arrived: seq<Arrival>): (r: seq<Record>)
    ensures |r| <= |arrived|
  {
    if arrived == [] then []
    else
      var last := arrived[|arrived| - 1];
      Kept(arrived[..|arrived| - 1]) + if last.waiting < MAX_BUFFERS then [last.r] else []
  }

  /** The arrivals that have been decided on. */
  function Decided(s: State): seq<Arrival> {
    if s.parser.Entered? && s.arrived != [] then s.arrived[..|s.arrived| - 1] else s.arrived
  }

  /** Until its place is decided on, nobody changes the list the last arrival found. */
  ghost predicate Accounted(s: State) {
    && (s.parser.Entered? ==> s.arrived != [] && s.arrived[|s.arrived| - 1] == Arrival(s.parser.r, |s.buffers|))
    && s.queued == Kept(Decided(s))
    && s.bufferErrors == |Decided(s)| - |s.queued|
  }

  lemma ArriveAccounted(s: State, r: Record)
    requires Sound(s) && Accounted(s) && Enabled(s, Arrive(r))
    ensures Accounted(Step(s, Arrive(r)))
  {
    assert Step(s, Arrive(r)).arrived[..|s.arrived|] == s.arrived;
  }

  lemma GetBufferAccounted(s: State)
    requires Sound(s) && Accounted(s) && Enabled(s, GetBuffer)
    ensures Accounted(Step(s, GetBuffer))
  {
    var s' := Step(s, GetBuffer);
    assert Decided(s') == s.arrived && Decided(s) == s.arrived[..|s.arrived| - 1];
  }

  lemma StepAccounted(s: State, l: Label)
    requires Sound(s) && Ordered(s) && Accounted(s) && Enabled(s, l)
    ensures Accounted(Step(s, l))
  {
    var s' := Step(s, l);
    if l.Arrive? {
      ArriveAccounted(s, l.r);
    } else if l == GetBuffer {
      GetBufferAccounted(s);
    } else {
      assert s'.arrived == s.arrived && s'.queued == s.queued && s'.bufferErrors == s.bufferErrors;
      assert s.parser.Entered? ==> s'.parser == s.parser && s'.buffers == s.buffers;
    }
  }

  lemma {:induction false} RunSound(s: State, ls: seq<Label>, s': State)
    requires Sound(s) && Ordered(s) && Accounted(s) && Run(s, ls, s')
    ensures Sound(s') && Ordered(s') && Accounted(s') && s'.subscribed == s.subscribed
    decreases |ls|
  {
    if ls != [] {
      StepSound(s, ls[0]);
      StepOrdered(s, ls[0]);
      StepAccounted(s, ls[0]);
      RunSound(Step(s, ls[0]), ls[1..], s');
    }
  }

  /**
   * In every interleaving of the two threads: the front of an empty list is never taken;
   * what the test thread has received is the first queued records, complete and in order;
   * the queued records are those that arrived, without exactly those that met MAX_BUFFERS
   * waiting ones, which are counted.
   */
  lemma {:induction false} RecordsArriveWhole(subscribed: set<int>, ls: seq<Label>, s: State)
    requires Run(Init(subscribed), ls, s)
    ensures s.tester == Holding ==> s.buffers != []
    ensures |s.received| <= |s.queued|
    ensures forall k :: 0 <= k < |s.received| ==> s.received[k] == Assembled(subscribed, s.queued[k])
    ensures s.queued == Kept(Decided(s)) && s.bufferErrors == |Decided(s)| - |s.queued|
  {
    RunSound(Init(subscribed), ls, s);
    var all := s.received + s.buffers;
    forall k | 0 <= k < |s.received|
      ensures s.received[k] == Assembled(subscribed, s.queued[k])
    {
      assert all[k] == s.received[k];
    }
  }

  /** packetLock counts the waiting records, less the one its taker is already committed to. */
  lemma {:induction false} PacketLockCounts(subscribed: set<int>, ls: seq<Label>, s: State)
    requires Run(Init(subscribed), ls, s) && !s.parser.Pushed?
    ensures s.packetLock + (if s.tester == AtRecordMutex || s.tester == Holding then 1 else 0) == |s.buffers|
    ensures s.tester == AtPacketLock && s.packetLock == 0 ==> |s.received| == |s.queued|
  {
    RunSound(Init(subscribed), ls, s);
  }

  /**
   * Nobody is stuck, in any interleaving: a thread inside recordMutex can always go on, the parser can
   * come with any record when the test thread is not inside, and the test thread can take one when some wait.
   */
  lemma NobodyStuck(subscribed: set<int>, ls: seq<Label>, s: State, r: Record)
    requires Run(Init(subscribed), ls, s)
    ensures s.tester == Holding ==> Enabled(s, TakeFront)
    ensures s.tester == Taken ==> Enabled(s, UnlockMutex)
    ensures s.parser == Outside && s.tester != Holding && s.tester != Taken ==> Enabled(s, Arrive(r))
    ensures s.parser == Outside && s.tester == AtRecordMutex ==> Enabled(s, LockMutex)
    ensures s.parser == Outside && s.tester == AtPacketLock && s.buffers != [] ==> Enabled(s, WaitRecord)
    ensures s.parser != Outside ==> exists l :: l in ParserLabels() && Enabled(s, l)
  {
    RunSound(Init(subscribed), ls, s);
    match s.parser
    case Outside =>
    case Entered(_) => assert GetBuffer in ParserLabels() && Enabled(s, GetBuffer);
    case Pushed(_) => assert Announce in ParserLabels() && Enabled(s, Announce);
    case Starting(_) => assert Start in ParserLabels() && Enabled(s, Start);
    case Filling(rec, k) =>
      assert AddField in ParserLabels() && End in ParserLabels();
      if k < |rec.fields| { assert Enabled(s, AddField); } else { assert Enabled(s, End); }
    case Leaving => assert Leave in ParserLabels() && Enabled(s, Leave);
  }

  /** The steps of the parser inside recordMutex. */
  function ParserLabels(): set<Label> {
    {GetBuffer, Announce, Start, AddField, End, Leave}
  }
}
