/**
 * The hand-over of packet numbers from the receiver thread through the manager
 * thread to the detection module processes, one atomic step at a time.
 *
 * written, pushed, popped, fromNo, toNo and, in a module, next and delivered are
 * history variables: unbounded packet numbers that the program keeps only as
 * wrapping counters.
 */
module Exchange {
  import opened FileCounters

  /** messageCallBackFunction: store the packet, push it, count the name up, wake the manager. */
  datatype ReceiverPc = Listening | Stored | Queued | Exported

  /** Manager::run with notifyAll, wait and clearSink inlined. */
  datatype ManagerPc =
    | AtLock
    | SettingFrom(k: nat)
    | SettingTo(k: nat)
    | Raising(k: nat)
    | WaitingFor(k: nat)
    | AtClear
    | Popping(left: nat)
    | Failed

  /** The module's work thread: wait, the import loop, notify. */
  datatype ModulePc = Blocked | AtFrom | AtTest | AtRead | AtNotify

  datatype Module = Module(sem: nat, pc: ModulePc, i: Count, next: nat, delivered: seq<nat>) {
    /** Not taking part in the current round, or through with it. */
    predicate Idle() { pc == Blocked && sem == 0 }

    /** Has left the import loop of the current round. */
    predicate Exited() { pc == AtNotify || Idle() }
  }

  datatype State = State(
    rpc: ReceiverPc, nameCounter: Count,
    queue: nat, newest: Count, oldest: Count, tokens: nat,
    mpc: ManagerPc, from: Count, to: Count,
    mods: seq<Module>,
    written: nat, pushed: nat, popped: nat, fromNo: nat, toNo: nat)

  datatype Label =
    | Store | StoreFails | Push | CountName | Wake
    | Lock | SetFrom | SetTo | Raise | SeeZero | BeginClear | Pop
    | Take(m: nat) | Begin(m: nat) | Test(m: nat) | Read(m: nat) | Release(m: nat)

  /** Manager's mutex is locked in its constructor, so the run starts without a token. */
  function Init(n: nat): State {
    State(Listening, 0, 0, 0, 0, 0, AtLock, 0, 0, seq(n, _ => Module(0, Blocked, 0, 0, [])), 0, 0, 0, 0, 0)
  }

  predicate Enabled(s: State, l: Label) {
    match l
    // the collector is used with fewer than MAX_FILES packets outstanding
    case Store => s.rpc == Listening && s.queue + 1 < MAX_FILES
    case StoreFails => s.rpc == Listening
    case Push => s.rpc == Stored
    case CountName => s.rpc == Queued
    case Wake => s.rpc == Exported
    case Lock => s.mpc == AtLock && s.tokens > 0
    case SetFrom => s.mpc.SettingFrom?
    case SetTo => s.mpc.SettingTo?
    case Raise => s.mpc.Raising? && s.mpc.k < |s.mods|
    case SeeZero => s.mpc.WaitingFor? && s.mpc.k < |s.mods| && s.mods[s.mpc.k].sem == 0
    case BeginClear => s.mpc == AtClear
    case Pop => s.mpc.Popping? && s.mpc.left > 0
    case Take(m) => m < |s.mods| && s.mods[m].pc == Blocked && s.mods[m].sem >= 1
    case Begin(m) => m < |s.mods| && s.mods[m].pc == AtFrom
    case Test(m) => m < |s.mods| && s.mods[m].pc == AtTest
    case Read(m) => m < |s.mods| && s.mods[m].pc == AtRead
    case Release(m) => m < |s.mods| && s.mods[m].pc == AtNotify && s.mods[m].sem >= 1
  }

  function Popped(left: nat): ManagerPc {
    if left == 0 then AtLock else Popping(left)
  }

  function Step(s: State, l: Label): State
    requires Enabled(s, l)
  {
    match l
    case Store => s.(rpc := Stored, written := s.written + 1)
    case StoreFails => s.(rpc := Exported)
    case Push => s.(rpc := Queued, queue := s.queue + 1, newest := Bump(s.newest), pushed := s.pushed + 1)
    case CountName => s.(rpc := Exported, nameCounter := Bump(s.nameCounter))
    case Wake => s.(rpc := Listening, tokens := s.tokens + 1)
    case Lock => s.(tokens := s.tokens - 1, mpc := SettingFrom(0))
    case SetFrom => s.(from := s.oldest, fromNo := s.popped, mpc := SettingTo(s.mpc.k))
    case SetTo => s.(to := s.newest, toNo := s.pushed, mpc := Raising(s.mpc.k))
    case Raise =>
      var m := s.mods[s.mpc.k];
      s.(mods := s.mods[s.mpc.k := m.(sem := m.sem + 2)],
         mpc := if s.mpc.k + 1 == |s.mods| then WaitingFor(0) else SettingFrom(s.mpc.k + 1))
    case SeeZero => s.(mpc := if s.mpc.k + 1 == |s.mods| then AtClear else WaitingFor(s.mpc.k + 1))
    case BeginClear =>
      var count := Minus(s.to, s.from);
      if count > s.queue then s.(mpc := Failed) else s.(mpc := Popped(count))
    case Pop =>
      s.(queue := if s.queue > 0 then s.queue - 1 else 0, oldest := Bump(s.oldest), popped := s.popped + 1,
         mpc := Popped(s.mpc.left - 1))
    case Take(j) => var m := s.mods[j]; s.(mods := s.mods[j := m.(sem := m.sem - 1, pc := AtFrom)])
    case Begin(j) => var m := s.mods[j]; s.(mods := s.mods[j := m.(i := s.from, next := s.fromNo, pc := AtTest)])
    case Test(j) => var m := s.mods[j]; s.(mods := s.mods[j := m.(pc := if m.i != s.to then AtRead else AtNotify)])
    case Read(j) =>
      var m := s.mods[j];
      s.(mods := s.mods[j := m.(i := Bump(m.i), next := m.next + 1, delivered := m.delivered + [m.next], pc := AtTest)])
    case Release(j) => var m := s.mods[j]; s.(mods := s.mods[j := m.(sem := m.sem - 1, pc := Blocked)])
  }

  /** s leads to s' through the labels ls. */
  ghost predicate Run(s: State, ls: seq<Label>, s': State)
    decreases |ls|
  {
    if ls == [] then s' == s
    else Enabled(s, ls[0]) && Run(Step(s, ls[0]), ls[1..], s')
  }

  // ---------------------------------------------------------------- invariant

  /** Counters are the wrapped history, and the store's length is what they differ by. */
  ghost predicate Counted(s: State) {
    && s.popped <= s.pushed <= s.written <= s.pushed + 1
    && (s.written == s.pushed + 1 <==> s.rpc == Stored)
    && s.queue == s.pushed - s.popped
    && s.queue + (if s.rpc == Stored then 1 else 0) < MAX_FILES
    && s.newest == Wrap(s.pushed) && s.oldest == Wrap(s.popped)
    && (s.rpc == Queued ==> s.pushed > 0)
    && s.nameCounter == Wrap(if s.rpc == Queued then s.pushed - 1 else s.pushed)
  }

  /** from and to are those of the current round. */
  ghost predicate Published(s: State) {
    && s.from == Wrap(s.fromNo) && s.to == Wrap(s.toNo)
    && s.fromNo == s.popped <= s.toNo <= s.pushed
  }

  /** A module the manager has raised in this round. */
  ghost predicate Raised(s: State, m: Module) {
    && m.next <= s.toNo
    && match m.pc
       case Blocked => m.sem == 0 || (m.sem == 2 && m.next <= s.fromNo)
       case AtFrom => m.sem == 1 && m.next <= s.fromNo
       case AtTest => m.sem == 1 && s.fromNo <= m.next && m.i == Wrap(m.next)
       case AtRead => m.sem == 1 && s.fromNo <= m.next < s.toNo && m.i == Wrap(m.next)
       case AtNotify => m.sem == 1
  }

  /** A module the manager has not raised, or has seen finish. */
  ghost predicate Resting(m: Module, bound: nat) {
    m.Idle() && m.next <= bound
  }

  ghost predicate Notifying(s: State, k: nat) {
    && k < |s.mods|
    && (forall j :: 0 <= j < k ==> Raised(s, s.mods[j]))
    && (forall j :: k <= j < |s.mods| ==> Resting(s.mods[j], s.popped))
    && (k > 0 ==> Published(s))
  }

  ghost predicate Phased(s: State) {
    match s.mpc
    case AtLock => forall j :: 0 <= j < |s.mods| ==> Resting(s.mods[j], s.popped)
    case SettingFrom(k) => Notifying(s, k)
    case SettingTo(k) => Notifying(s, k) && s.from == Wrap(s.popped) && s.fromNo == s.popped
    case Raising(k) => Notifying(s, k) && Published(s)
    case WaitingFor(k) =>
      && k < |s.mods| && Published(s)
      && (forall j :: 0 <= j < k ==> Resting(s.mods[j], s.toNo))
      && (forall j :: k <= j < |s.mods| ==> Raised(s, s.mods[j]))
    case AtClear => Published(s) && forall j :: 0 <= j < |s.mods| ==> Resting(s.mods[j], s.toNo)
    case Popping(left) =>
      && left > 0 && s.popped + left == s.toNo <= s.pushed
      && forall j :: 0 <= j < |s.mods| ==> Resting(s.mods[j], s.toNo)
    case Failed => false
  }

  /** Pushed, but the manager not yet woken for it. */
  function Unannounced(s: State): nat {
    if s.rpc == Queued || s.rpc == Exported then 1 else 0
  }

  /** Every packet the current round does not cover is announced by a token of its own. */
  ghost predicate Announced(s: State) {
    match s.mpc
    case AtLock => s.queue <= s.tokens + Unannounced(s)
    case SettingFrom(k) => true
    case SettingTo(k) => true
    case Raising(k) => s.pushed - s.toNo <= s.tokens + Unannounced(s)
    case WaitingFor(k) => s.pushed - s.toNo <= s.tokens + Unannounced(s)
    case AtClear => s.pushed - s.toNo <= s.tokens + Unannounced(s)
    case Popping(left) => s.pushed - s.toNo <= s.tokens + Unannounced(s)
    case Failed => false
  }

  /** Handed out in increasing order, hence each packet at most once. */
  ghost predicate InOrder(m: Module) {
    && (forall x :: 0 <= x < |m.delivered| ==> m.delivered[x] < m.next)
    && (forall x, y :: 0 <= x < y < |m.delivered| ==> m.delivered[x] < m.delivered[y])
  }

  ghost predicate Inv(s: State) {
    && |s.mods| > 0
    && Counted(s) && Phased(s) && Announced(s)
    && forall j :: 0 <= j < |s.mods| ==> InOrder(s.mods[j])
  }

  lemma InitInv(n: nat)
    requires n > 0
    ensures Inv(Init(n))
  {
  }

  /** What the receiver does leaves the round as it is. */
  lemma PhasedFrame(s: State, s': State)
    requires Phased(s) && s.pushed <= s'.pushed
    requires s' == s.(rpc := s'.rpc, nameCounter := s'.nameCounter, queue := s'.queue, newest := s'.newest,
                      tokens := s'.tokens, written := s'.written, pushed := s'.pushed)
    ensures Phased(s')
  {
    assert forall m {:trigger Raised(s, m)} :: Raised(s, m) ==> Raised(s', m);
  }

  lemma ReceiverInv(s: State, l: Label)
    requires Inv(s) && Enabled(s, l) && (l == Store || l == StoreFails || l == Wake)
    ensures Inv(Step(s, l))
  {
    PhasedFrame(s, Step(s, l));
  }

  lemma PushInv(s: State)
    requires Inv(s) && Enabled(s, Push)
    ensures Inv(Step(s, Push))
  {
    BumpWraps(s.pushed);
    PhasedFrame(s, Step(s, Push));
  }

  lemma CountNameInv(s: State)
    requires Inv(s) && Enabled(s, CountName)
    ensures Inv(Step(s, CountName))
  {
    BumpWraps(s.pushed - 1);
    PhasedFrame(s, Step(s, CountName));
  }

  lemma ManagerInv(s: State, l: Label)
    requires Inv(s) && Enabled(s, l) && (l == Lock || l == SetFrom)
    ensures Inv(Step(s, l))
  {
    var s' := Step(s, l);
    assert forall j :: 0 <= j < |s.mods| ==> (Raised(s, s.mods[j]) && Published(s) ==> Raised(s', s'.mods[j]));
  }

  lemma SetToInv(s: State)
    requires Inv(s) && Enabled(s, SetTo)
    ensures Inv(Step(s, SetTo))
  {
    var s' := Step(s, SetTo);
    assert forall j :: 0 <= j < |s.mods| ==> (Raised(s, s.mods[j]) && Published(s) ==> Raised(s', s'.mods[j]));
  }

  lemma SeeZeroInv(s: State)
    requires Inv(s) && Enabled(s, SeeZero)
    ensures Inv(Step(s, SeeZero))
  {
    var s' := Step(s, SeeZero);
    assert forall j :: 0 <= j < |s.mods| ==> (Raised(s, s.mods[j]) && Published(s) ==> Raised(s', s'.mods[j]));
  }

  lemma RaiseInv(s: State)
    requires Inv(s) && Enabled(s, Raise)
    ensures Inv(Step(s, Raise))
  {
    var s' := Step(s, Raise);
    assert forall j :: 0 <= j < |s.mods| && j != s.mpc.k ==> s'.mods[j] == s.mods[j];
    assert forall j :: 0 <= j < s.mpc.k ==> Raised(s', s'.mods[j]);
    assert Raised(s', s'.mods[s.mpc.k]);
  }

  lemma BeginClearInv(s: State)
    requires Inv(s) && Enabled(s, BeginClear)
    ensures Inv(Step(s, BeginClear))
    ensures Minus(s.to, s.from) == s.toNo - s.popped
  {
    MinusCountsIff(s.toNo, s.fromNo);
  }

  lemma PopInv(s: State)
    requires Inv(s) && Enabled(s, Pop)
    ensures Inv(Step(s, Pop))
  {
    BumpWraps(s.popped);
  }

  /** A module that is at work is one the manager has raised and not yet seen finish. */
  lemma AtWork(s: State, j: nat)
    requires Inv(s) && j < |s.mods| && !s.mods[j].Idle()
    ensures Published(s) && Raised(s, s.mods[j])
    ensures s.mpc.SettingFrom? || s.mpc.SettingTo? || s.mpc.Raising? ==> j < s.mpc.k
    ensures s.mpc.WaitingFor? ==> s.mpc.k <= j
    ensures s.mpc.SettingFrom? || s.mpc.SettingTo? || s.mpc.Raising? || s.mpc.WaitingFor?
  {
  }

  lemma ModuleFrame(s: State, j: nat, m: Module)
    requires Inv(s) && j < |s.mods| && !s.mods[j].Idle()
    requires Raised(s, m) && InOrder(m)
    ensures Inv(s.(mods := s.mods[j := m]))
  {
    AtWork(s, j);
    var s' := s.(mods := s.mods[j := m]);
    assert forall x :: 0 <= x < |s.mods| && x != j ==>
             s'.mods[x] == s.mods[x] && (Raised(s, s.mods[x]) ==> Raised(s', s.mods[x]));
    assert Raised(s', m);
  }

  lemma ModuleInv(s: State, l: Label, j: nat)
    requires Inv(s) && Enabled(s, l)
             && (l == Take(j) || l == Begin(j) || l == Test(j) || l == Read(j) || l == Release(j))
    ensures Inv(Step(s, l))
  {
    AtWork(s, j);
    var m, m' := s.mods[j], Step(s, l).mods[j];
    BumpWraps(m.next);
    if l == Test(j) { WrapTells(m.next, s.toNo); }
    assert Raised(s, m');
    assert InOrder(m');
    ModuleFrame(s, j, m');
  }

  lemma StepInv(s: State, l: Label)
    requires Inv(s) && Enabled(s, l)
    ensures Inv(Step(s, l))
  {
    match l
    case Store => ReceiverInv(s, l);
    case StoreFails => ReceiverInv(s, l);
    case Push => PushInv(s);
    case CountName => CountNameInv(s);
    case Wake => ReceiverInv(s, l);
    case Lock => ManagerInv(s, l);
    case SetFrom => ManagerInv(s, l);
    case SetTo => SetToInv(s);
    case SeeZero => SeeZeroInv(s);
    case Raise => RaiseInv(s);
    case BeginClear => BeginClearInv(s);
    case Pop => PopInv(s);
    case Take(m) => ModuleInv(s, l, m);
    case Begin(m) => ModuleInv(s, l, m);
    case Test(m) => ModuleInv(s, l, m);
    case Read(m) => ModuleInv(s, l, m);
    case Release(m) => ModuleInv(s, l, m);
  }

  lemma {:induction false} RunInv(s: State, ls: seq<Label>, s': State)
    requires Inv(s) && Run(s, ls, s')
    ensures Inv(s')
    decreases |ls|
  {
    if ls != [] {
      StepInv(s, ls[0]);
      RunInv(Step(s, ls[0]), ls[1..], s');
    }
  }

  // ---------------------------------------------------------------- safety of every interleaving

  /**
   * In every interleaving, with any number of modules: a module about to read names a
   * packet that is stored and not yet removed; while the manager removes, no module is
   * at work; clearSink never asks for more packets than are queued; no packet is handed
   * to a module twice or out of order.
   */
  lemma {:induction false} SafeInEveryRun(n: nat, ls: seq<Label>, s: State)
    requires n > 0 && Run(Init(n), ls, s)
    ensures forall j :: 0 <= j < |s.mods| && s.mods[j].pc == AtRead ==>
              s.popped <= s.mods[j].next < s.pushed && s.mods[j].i == Wrap(s.mods[j].next)
    ensures s.mpc.Popping? || s.mpc == AtClear ==> forall j :: 0 <= j < |s.mods| ==> s.mods[j].Idle()
    ensures s.mpc != Failed
    ensures forall j :: 0 <= j < |s.mods| ==> InOrder(s.mods[j])
  {
    InitInv(n);
    RunInv(Init(n), ls, s);
    forall j | 0 <= j < |s.mods| && s.mods[j].pc == AtRead
      ensures s.popped <= s.mods[j].next < s.pushed && s.mods[j].i == Wrap(s.mods[j].next)
    {
      AtWork(s, j);
    }
  }

  /**
   * The counters tell the truth: they differ by the queue's length, the file name counter
   * equals newest between two exports, and clearSink removes exactly the published range.
   */
  lemma {:induction false} CountersTell(n: nat, ls: seq<Label>, s: State)
    requires n > 0 && Run(Init(n), ls, s)
    ensures Minus(s.newest, s.oldest) == s.queue
    ensures s.rpc == Listening ==> s.nameCounter == s.newest
    ensures s.mpc == AtClear ==> Minus(s.to, s.from) == s.toNo - s.popped <= s.queue
  {
    InitInv(n);
    RunInv(Init(n), ls, s);
    MinusCountsIff(s.pushed, s.popped);
    if s.mpc == AtClear { BeginClearInv(s); }
  }

  /** No lost wake-up: the manager only ever sleeps on an empty store, unless a wake-up is still on its way. */
  lemma {:induction false} NoLostWakeup(n: nat, ls: seq<Label>, s: State)
    requires n > 0 && Run(Init(n), ls, s)
    ensures s.mpc == AtLock && s.tokens == 0 && (s.rpc == Listening || s.rpc == Stored) ==> s.queue == 0
  {
    InitInv(n);
    RunInv(Init(n), ls, s);
  }

  // ---------------------------------------------------------------- delivery

  function Upto(n: nat): (r: seq<nat>)
    ensures |r| == n && forall x :: 0 <= x < n ==> r[x] == x
  {
    seq(n, x => x)
  }

  /** Module j has been raised in the round the manager is in. */
  predicate InRound(s: State, j: nat) {
    match s.mpc
    case AtLock => false
    case SettingFrom(k) => j < k
    case SettingTo(k) => j < k
    case Raising(k) => j < k
    case WaitingFor(k) => true
    case AtClear => true
    case Popping(left) => true
    case Failed => false
  }

  /**
   * The manager is about to publish a new end of the range although module j of this
   * round has already left its import loop: detectmodexporter.cpp:97-98 runs once per module.
   */
  predicate LateFor(s: State, j: nat) {
    s.mpc.SettingTo? && s.newest != s.to && j < s.mpc.k && j < |s.mods| && s.mods[j].Exited()
  }

  ghost predicate Late(s: State) {
    exists j :: 0 <= j < |s.mods| && LateFor(s, j)
  }

  /** The run publishes no new end too late. */
  ghost predicate OnTime(s: State, ls: seq<Label>)
    decreases |ls|
  {
    ls == [] || (Enabled(s, ls[0]) ==> !(ls[0] == SetTo && Late(s)) && OnTime(Step(s, ls[0]), ls[1..]))
  }

  /** How many packets module j ought to have been handed by now. */
  function Due(s: State, j: nat): nat
    requires j < |s.mods|
  {
    var m := s.mods[j];
    if !InRound(s, j) then s.popped
    else if m.Exited() then s.toNo
    else if m.pc == AtTest || m.pc == AtRead then m.next
    else s.fromNo
  }

  /** Module j was handed the packets 0, 1, ... up to the one it is at. */
  ghost predicate Fit(s: State, j: nat)
    requires j < |s.mods|
  {
    s.mods[j].delivered == Upto(Due(s, j))
  }

  ghost predicate Complete(s: State) {
    forall j :: 0 <= j < |s.mods| ==> Fit(s, j)
  }

  lemma SetToDue(s: State, j: nat)
    requires Inv(s) && Enabled(s, SetTo) && j < |s.mods| && !LateFor(s, j)
    ensures Due(Step(s, SetTo), j) == Due(s, j)
  {
    if j < s.mpc.k && s.mods[j].Exited() { WrapTells(s.toNo, s.pushed); }
  }

  lemma RaiseDue(s: State, j: nat)
    requires Inv(s) && Enabled(s, Raise) && j < |s.mods|
    ensures Due(Step(s, Raise), j) == Due(s, j)
  {
  }

  lemma SeeZeroDue(s: State, j: nat)
    requires Inv(s) && Enabled(s, SeeZero) && j < |s.mods|
    ensures Due(Step(s, SeeZero), j) == Due(s, j)
  {
  }

  lemma ClearDue(s: State, j: nat)
    requires Inv(s) && Enabled(s, BeginClear) && j < |s.mods|
    ensures Due(Step(s, BeginClear), j) == Due(s, j)
  {
    BeginClearInv(s);
  }

  lemma PopDue(s: State, j: nat)
    requires Inv(s) && Enabled(s, Pop) && j < |s.mods|
    ensures Due(Step(s, Pop), j) == Due(s, j)
  {
  }

  /** A step of the module itself. */
  lemma OwnDue(s: State, l: Label, j: nat)
    requires Inv(s) && Enabled(s, l) && (l == Take(j) || l == Begin(j) || l == Test(j) || l == Release(j))
    ensures Due(Step(s, l), j) == Due(s, j)
  {
    AtWork(s, j);
    if l == Test(j) { WrapTells(s.mods[j].next, s.toNo); }
  }

  lemma ReadFits(s: State, j: nat)
    requires Inv(s) && Enabled(s, Read(j)) && Fit(s, j)
    ensures Fit(Step(s, Read(j)), j)
  {
    AtWork(s, j);
    assert Upto(s.mods[j].next) + [s.mods[j].next] == Upto(s.mods[j].next + 1);
  }

  /** The module whose step l is. */
  function Actor(l: Label): int {
    if l.Take? || l.Begin? || l.Test? || l.Read? || l.Release? then l.m else -1
  }

  lemma OthersDue(s: State, l: Label, j: nat)
    requires Inv(s) && Enabled(s, l) && j < |s.mods| && Actor(l) >= 0 && Actor(l) != j
    ensures Step(s, l).mods[j] == s.mods[j] && Due(Step(s, l), j) == Due(s, j)
  {
  }

  lemma OwnFits(s: State, l: Label, j: nat)
    requires Inv(s) && Enabled(s, l) && j < |s.mods| && Fit(s, j) && Actor(l) == j
    ensures Fit(Step(s, l), j)
  {
    if l == Read(j) { ReadFits(s, j); } else { OwnDue(s, l, j); }
  }

  lemma ManagerDue(s: State, l: Label, j: nat)
    requires Inv(s) && Enabled(s, l) && j < |s.mods| && Actor(l) < 0 && !(l == SetTo && LateFor(s, j))
    ensures Due(Step(s, l), j) == Due(s, j)
  {
    match l
    case SetTo => SetToDue(s, j);
    case Raise => RaiseDue(s, j);
    case SeeZero => SeeZeroDue(s, j);
    case BeginClear => ClearDue(s, j);
    case Pop => PopDue(s, j);
    case _ =>
  }

  lemma StepFits(s: State, l: Label, j: nat)
    requires Inv(s) && Enabled(s, l) && j < |s.mods| && Fit(s, j) && !(l == SetTo && LateFor(s, j))
    ensures |Step(s, l).mods| == |s.mods| && Fit(Step(s, l), j)
  {
    if Actor(l) == j {
      OwnFits(s, l, j);
    } else {
      if Actor(l) >= 0 { OthersDue(s, l, j); } else { ManagerDue(s, l, j); }
      HandedOut(s, l, j);
    }
  }

  lemma StepComplete(s: State, l: Label)
    requires Inv(s) && Complete(s) && Enabled(s, l) && !(l == SetTo && Late(s))
    ensures Complete(Step(s, l))
  {
    forall j | 0 <= j < |Step(s, l).mods|
      ensures Fit(Step(s, l), j)
    {
      ModulesCount(s, l);
      StepFits(s, l, j);
    }
  }

  lemma ModulesCount(s: State, l: Label)
    requires Enabled(s, l)
    ensures |Step(s, l).mods| == |s.mods|
  {
  }

  lemma {:induction false} RunComplete(s: State, ls: seq<Label>, s': State)
    requires Inv(s) && Complete(s) && Run(s, ls, s') && OnTime(s, ls)
    ensures Inv(s') && Complete(s')
    decreases |ls|
  {
    if ls != [] {
      StepInv(s, ls[0]);
      StepComplete(s, ls[0]);
      RunComplete(Step(s, ls[0]), ls[1..], s');
    }
  }

  // ---------------------------------------------------------------- loss

  /** Packet x is removed, or about to be, and module j will never be handed it. */
  ghost predicate Lost(s: State, j: nat, x: nat) {
    && j < |s.mods|
    && x !in s.mods[j].delivered
    && (x < s.popped || (x < s.toNo && InRound(s, j) && s.mods[j].Exited()))
  }

  lemma LateLoses(s: State) returns (j: nat)
    requires Inv(s) && Enabled(s, SetTo) && Late(s)
    ensures LateFor(s, j) && Lost(Step(s, SetTo), j, s.toNo)
  {
    j :| 0 <= j < |s.mods| && LateFor(s, j);
    assert Raised(s, s.mods[j]) && Published(s) && InOrder(s.mods[j]);
    WrapTells(s.toNo, s.pushed);
  }

  lemma LossStaysOwn(s: State, l: Label, j: nat, x: nat)
    requires Inv(s) && Enabled(s, l) && Lost(s, j, x) && Actor(l) == j
    ensures Lost(Step(s, l), j, x)
  {
    AtWork(s, j);
  }

  lemma LossStaysInOther(s: State, l: Label, j: nat, x: nat)
    requires Inv(s) && Enabled(s, l) && Lost(s, j, x) && Actor(l) >= 0 && Actor(l) != j
    ensures Lost(Step(s, l), j, x)
  {
    OthersDue(s, l, j);
  }

  lemma LossStaysInManager(s: State, l: Label, j: nat, x: nat)
    requires Inv(s) && Enabled(s, l) && Lost(s, j, x)
    requires l == Lock || l == SetFrom || l == SetTo || l == SeeZero || l == Pop
    ensures Lost(Step(s, l), j, x)
  {
  }

  lemma LossStaysInRaise(s: State, j: nat, x: nat)
    requires Inv(s) && Enabled(s, Raise) && Lost(s, j, x)
    ensures Lost(Step(s, Raise), j, x)
  {
    if s.mpc.k != j { assert Step(s, Raise).mods[j] == s.mods[j]; }
  }

  lemma LossStays(s: State, l: Label, j: nat, x: nat)
    requires Inv(s) && Enabled(s, l) && Lost(s, j, x)
    ensures Lost(Step(s, l), j, x)
  {
    if Actor(l) == j {
      LossStaysOwn(s, l, j, x);
    } else if Actor(l) >= 0 {
      LossStaysInOther(s, l, j, x);
    } else {
      match l
      case Lock => LossStaysInManager(s, l, j, x);
      case SetFrom => LossStaysInManager(s, l, j, x);
      case SetTo => LossStaysInManager(s, l, j, x);
      case SeeZero => LossStaysInManager(s, l, j, x);
      case Pop => LossStaysInManager(s, l, j, x);
      case Raise => LossStaysInRaise(s, j, x);
      case BeginClear => BeginClearInv(s);
      case _ =>
    }
  }

  lemma {:induction false} RunLoses(s: State, ls: seq<Label>, s': State, j: nat, x: nat)
    requires Inv(s) && Run(s, ls, s') && Lost(s, j, x)
    ensures Inv(s') && Lost(s', j, x)
    decreases |ls|
  {
    if ls != [] {
      StepInv(s, ls[0]);
      LossStays(s, ls[0], j, x);
      RunLoses(Step(s, ls[0]), ls[1..], s', j, x);
    }
  }

  lemma {:induction false} TooLateLoses(s: State, ls: seq<Label>, s': State) returns (j: nat, x: nat)
    requires Inv(s) && Run(s, ls, s') && !OnTime(s, ls)
    ensures Inv(s') && Lost(s', j, x)
    decreases |ls|
  {
    StepInv(s, ls[0]);
    if ls[0] == SetTo && Late(s) {
      j := LateLoses(s);
      x := s.toNo;
      RunLoses(Step(s, SetTo), ls[1..], s', j, x);
    } else {
      j, x := TooLateLoses(Step(s, ls[0]), ls[1..], s');
    }
  }

  /**
   * Exactly-once delivery, and exactly when it fails.  Between rounds every module has been
   * handed precisely the packets 0, 1, ... up to the last one removed, each once and in order,
   * if and only if no range end was ever published after a module of the round had finished.
   */
  lemma {:induction false} DeliveredIffOnTime(n: nat, ls: seq<Label>, s: State)
    requires n > 0 && Run(Init(n), ls, s) && s.mpc == AtLock
    ensures (forall j :: 0 <= j < |s.mods| ==> s.mods[j].delivered == Upto(s.popped)) <==> OnTime(Init(n), ls)
  {
    InitInv(n);
    if OnTime(Init(n), ls) {
      RunComplete(Init(n), ls, s);
      forall j | 0 <= j < |s.mods|
        ensures s.mods[j].delivered == Upto(s.popped)
      {
        assert Fit(s, j);
      }
    } else {
      var j, x := TooLateLoses(Init(n), ls, s);
      assert x == Upto(s.popped)[x] && x !in s.mods[j].delivered;
    }
  }

  // ---------------------------------------------------------------- each module by itself

  /** Some packet that was removed has never been handed to module j. */
  ghost predicate Missing(s: State, j: nat) {
    exists x: nat :: x < s.popped && Lost(s, j, x)
  }

  /** Module j has had every removed packet so far, but was through with its round when the end of the range moved. */
  ghost predicate Behind(s: State, j: nat) {
    && j < |s.mods|
    && s.mods[j].delivered == Upto(|s.mods[j].delivered|)
    && s.popped <= |s.mods[j].delivered| && Lost(s, j, |s.mods[j].delivered|)
  }

  ghost predicate Sound(s: State, j: nat) {
    j < |s.mods| && (Fit(s, j) || Behind(s, j))
  }

  lemma LateIsBehind(s: State, j: nat)
    requires Inv(s) && Enabled(s, SetTo) && LateFor(s, j) && Fit(s, j)
    ensures Behind(Step(s, SetTo), j)
  {
    assert Raised(s, s.mods[j]) && Published(s);
    WrapTells(s.toNo, s.pushed);
  }

  lemma BehindStep(s: State, l: Label, j: nat)
    requires Inv(s) && Enabled(s, l) && Behind(s, j)
    ensures Behind(Step(s, l), j) || Missing(Step(s, l), j)
    ensures Behind(Step(s, l), j) <==> !(l == Pop && |s.mods[j].delivered| == s.popped)
  {
    var k := |s.mods[j].delivered|;
    LossStays(s, l, j, k);
    HandedOut(s, l, j);
    PoppedGrows(s, l);
  }

  lemma HandedOut(s: State, l: Label, j: nat)
    requires Enabled(s, l) && j < |s.mods|
    ensures |Step(s, l).mods| == |s.mods|
    ensures Step(s, l).mods[j].delivered == s.mods[j].delivered + if l == Read(j) then [s.mods[j].next] else []
  {
  }

  lemma PoppedGrows(s: State, l: Label)
    requires Enabled(s, l)
    ensures Step(s, l).popped == s.popped + if l == Pop then 1 else 0
  {
  }

  lemma FitReaches(s: State, j: nat)
    requires Inv(s) && j < |s.mods| && Fit(s, j)
    ensures s.popped <= |s.mods[j].delivered|
    ensures s.mpc.Popping? ==> s.popped < |s.mods[j].delivered|
  {
    if !s.mods[j].Idle() { AtWork(s, j); }
  }

  /** A module stays sound until a packet is removed that it was not handed. */
  lemma SoundStep(s: State, l: Label, j: nat)
    requires Inv(s) && Enabled(s, l) && Sound(s, j)
    ensures if l == Pop && |s.mods[j].delivered| == s.popped then Missing(Step(s, l), j) else Sound(Step(s, l), j)
  {
    if Behind(s, j) {
      BehindStep(s, l, j);
    } else {
      FitReaches(s, j);
      if l == SetTo && LateFor(s, j) { LateIsBehind(s, j); } else { StepFits(s, l, j); }
    }
  }

  lemma MissingStays(s: State, l: Label, j: nat)
    requires Inv(s) && Enabled(s, l) && Missing(s, j)
    ensures Missing(Step(s, l), j)
  {
    var x: nat :| x < s.popped && Lost(s, j, x);
    LossStays(s, l, j, x);
    PoppedGrows(s, l);
  }

  /** Increasing numbers below n that leave out those in gone. */
  lemma {:induction false} LeavesOut(d: seq<nat>, n: nat, gone: set<nat>)
    requires forall i, k :: 0 <= i < k < |d| ==> d[i] < d[k]
    requires forall i :: 0 <= i < |d| ==> d[i] < n && d[i] !in gone
    requires forall x :: x in gone ==> x < n
    ensures |d| + |gone| <= n
  {
    if d != [] || gone != {} {
      assert n > 0 by {
        if d != [] { assert d[0] < n; } else { var x :| x in gone; }
      }
      var m, last := n - 1, |d| - 1;
      if d != [] && d[last] == m {
        LeavesOut(d[..last], m, gone);
      } else {
        assert forall i :: 0 <= i < |d| ==> d[i] <= d[last];
        LeavesOut(d, m, gone - {m});
      }
    }
  }

  lemma MissingCounts(s: State, j: nat)
    requires Inv(s) && Missing(s, j)
    ensures |s.mods[j].delivered| < s.mods[j].next || |s.mods[j].delivered| < s.popped
    ensures s.mods[j].next <= s.popped ==> |s.mods[j].delivered| < s.popped
  {
    var x: nat :| x < s.popped && Lost(s, j, x);
    var d, next := s.mods[j].delivered, s.mods[j].next;
    assert InOrder(s.mods[j]);
    LeavesOut(d, if next < s.popped then s.popped else next, {x});
  }

  lemma {:induction false} RunSound(s: State, ls: seq<Label>, s': State, j: nat)
    requires Inv(s) && Run(s, ls, s') && (Sound(s, j) || Missing(s, j))
    ensures Inv(s') && (Sound(s', j) || Missing(s', j))
    decreases |ls|
  {
    if ls != [] {
      StepInv(s, ls[0]);
      if Sound(s, j) { SoundStep(s, ls[0], j); } else { MissingStays(s, ls[0], j); }
      RunSound(Step(s, ls[0]), ls[1..], s', j);
    }
  }

  /**
   * What a module at a read was handed before, in every run: all packets up to the one
   * it is at, or fewer because a packet that is removed by now is missing.
   */
  lemma AtReadSound(s: State, j: nat)
    requires Inv(s) && j < |s.mods| && s.mods[j].pc == AtRead && (Sound(s, j) || Missing(s, j))
    ensures Sound(s, j) <==> s.mods[j].delivered == Upto(s.mods[j].next)
    ensures Missing(s, j) <==> |s.mods[j].delivered| < s.mods[j].next
  {
    AtWork(s, j);
    if Missing(s, j) {
      var x: nat :| x < s.popped && Lost(s, j, x);
      MissingCounts(s, j);
      assert x == Upto(s.mods[j].next)[x];
      if Sound(s, j) { SoundNotMissing(s, j); }
    }
  }

  /** The removed packets that module j was not handed. */
  ghost function Gone(s: State, j: nat): set<nat>
    requires j < |s.mods|
  {
    set p: nat | p < s.popped && p !in s.mods[j].delivered
  }

  lemma AtReadGone(s: State, j: nat)
    requires Inv(s) && j < |s.mods| && s.mods[j].pc == AtRead
    ensures s.fromNo == s.popped && |s.mods[j].delivered| + |Gone(s, j)| <= s.mods[j].next
    ensures Missing(s, j) <==> Gone(s, j) != {}
  {
    AtWork(s, j);
    assert InOrder(s.mods[j]);
    LeavesOut(s.mods[j].delivered, s.mods[j].next, Gone(s, j));
    if Missing(s, j) {
      var x: nat :| x < s.popped && Lost(s, j, x);
      assert x in Gone(s, j);
    }
    if Gone(s, j) != {} {
      var x :| x in Gone(s, j);
      assert Lost(s, j, x);
    }
  }

  lemma AllNotMissing(s: State, j: nat)
    requires j < |s.mods| && s.mods[j].delivered == Upto(s.popped)
    ensures !Missing(s, j)
  {
    forall x: nat | x < s.popped
      ensures x in s.mods[j].delivered
    {
      assert x == Upto(s.popped)[x];
    }
  }

  lemma SoundNotMissing(s: State, j: nat)
    requires Inv(s) && Sound(s, j)
    ensures !Missing(s, j)
  {
    var d := s.mods[j].delivered;
    if Fit(s, j) { FitReaches(s, j); }
    assert d == Upto(|d|);
    forall x: nat | x < s.popped
      ensures x in d
    {
      assert x == d[x];
    }
  }

  /** With a single module no run can be late, so delivery is exactly once in every run. */
  lemma {:induction false} OneModuleOnTime(s: State, ls: seq<Label>)
    requires Inv(s) && |s.mods| == 1
    ensures OnTime(s, ls)
    decreases |ls|
  {
    if ls != [] && Enabled(s, ls[0]) {
      StepInv(s, ls[0]);
      OneModuleOnTime(Step(s, ls[0]), ls[1..]);
    }
  }

  lemma {:induction false} OneModuleGetsAll(n: nat, ls: seq<Label>, s: State)
    requires n == 1 && Run(Init(n), ls, s)
    ensures |s.mods| == 1
    ensures s.mpc == AtLock ==> s.mods[0].delivered == Upto(s.popped)
    ensures s.mpc.Popping? ==> s.mods[0].delivered == Upto(s.toNo) && s.popped < s.toNo
  {
    InitInv(n);
    AloneComplete(Init(n), ls, s);
    assert Fit(s, 0);
  }

  lemma {:induction false} OneModuleSound(n: nat, ls: seq<Label>, s: State)
    requires n == 1 && Run(Init(n), ls, s)
    ensures |s.mods| == 1 && !Missing(s, 0) && (s.mpc == AtLock ==> s.mods[0].delivered == Upto(s.popped))
  {
    InitInv(n);
    AloneComplete(Init(n), ls, s);
    assert Fit(s, 0);
    SoundNotMissing(s, 0);
  }

  lemma {:induction false} AloneComplete(s: State, ls: seq<Label>, s': State)
    requires Inv(s) && Complete(s) && |s.mods| == 1 && Run(s, ls, s')
    ensures Inv(s') && Complete(s') && |s'.mods| == 1
  {
    OneModuleOnTime(s, ls);
    RunComplete(s, ls, s');
    ModulesStay(s, ls, s');
  }

  lemma {:induction false} ModulesStay(s: State, ls: seq<Label>, s': State)
    requires Run(s, ls, s')
    ensures |s'.mods| == |s.mods|
    decreases |ls|
  {
    if ls != [] { ModulesStay(Step(s, ls[0]), ls[1..], s'); }
  }

  ghost predicate Reachable(n: nat, s: State) {
    exists ls :: Run(Init(n), ls, s)
  }

  lemma Reaches(n: nat, s: State, l: Label, s': State)
    requires Reachable(n, s) && Enabled(s, l) && Step(s, l) == s'
    ensures Reachable(n, s')
  {
    var ls :| Run(Init(n), ls, s);
    RunSnoc(Init(n), ls, s, l);
  }

  /** A manager woken without a packet raises the first module. */
  lemma FirstRaised(n: nat, s: State)
    requires n >= 2 && s == Init(n)
    ensures Reachable(n, s.(mpc := SettingFrom(1), mods := s.mods[0 := Module(2, Blocked, 0, 0, [])]))
  {
    assert Run(s, [], s);
    Reaches(n, s, StoreFails, s.(rpc := Exported));
    Reaches(n, s.(rpc := Exported), Wake, s.(tokens := 1));
    Reaches(n, s.(tokens := 1), Lock, s.(mpc := SettingFrom(0)));
    Reaches(n, s.(mpc := SettingFrom(0)), SetFrom, s.(mpc := SettingTo(0)));
    Reaches(n, s.(mpc := SettingTo(0)), SetTo, s.(mpc := Raising(0)));
    Reaches(n, s.(mpc := Raising(0)), Raise,
            s.(mpc := SettingFrom(1), mods := s.mods[0 := Module(2, Blocked, 0, 0, [])]));
  }

  /** The module finds nothing to import and is through before the manager turns to the second. */
  lemma FirstDone(n: nat, s: State)
    requires n >= 2 && s == Init(n).(mpc := SettingFrom(1))
    ensures Reachable(n, s.(mods := s.mods[0 := Module(1, AtNotify, 0, 0, [])]))
  {
    FirstRaised(n, Init(n));
    var s0 := s.(mods := s.mods[0 := Module(2, Blocked, 0, 0, [])]);
    var s1 := s.(mods := s.mods[0 := Module(1, AtFrom, 0, 0, [])]);
    var s2 := s.(mods := s.mods[0 := Module(1, AtTest, 0, 0, [])]);
    Reaches(n, s0, Take(0), s1);
    Reaches(n, s1, Begin(0), s2);
    Reaches(n, s2, Test(0), s.(mods := s.mods[0 := Module(1, AtNotify, 0, 0, [])]));
  }

  /** With two or more modules a late publication does occur: a packet is pushed before the second is notified. */
  lemma LateOccurs(n: nat) returns (s: State)
    requires n >= 2
    ensures Reachable(n, s) && Enabled(s, SetTo) && Late(s)
  {
    FirstDone(n, Init(n).(mpc := SettingFrom(1)));
    var s0 := Init(n).(mpc := SettingFrom(1), mods := Init(n).mods[0 := Module(1, AtNotify, 0, 0, [])]);
    var s1 := s0.(rpc := Stored, written := 1);
    var s2 := s1.(rpc := Queued, queue := 1, newest := 1, pushed := 1);
    s := s2.(mpc := SettingTo(1));
    Reaches(n, s0, Store, s1);
    Reaches(n, s1, Push, s2);
    Reaches(n, s2, SetFrom, s);
    assert LateFor(s, 0);
  }

  lemma {:induction false} RunSnoc(s: State, ls: seq<Label>, s': State, l: Label)
    requires Run(s, ls, s') && Enabled(s', l)
    ensures Run(s, ls + [l], Step(s', l))
    decreases |ls|
  {
    if ls == [] {
      assert [l][1..] == [];
    } else {
      RunSnoc(Step(s, ls[0]), ls[1..], s', l);
      assert (ls + [l])[1..] == ls[1..] + [l];
    }
  }
}
