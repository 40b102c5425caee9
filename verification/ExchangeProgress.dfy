/**
 * The hand-over protocol never gets stuck: every round ends, whatever the order of
 * steps, and without new packets everything stored is handed over and removed.
 */
module ExchangeProgress {
  import opened FileCounters
  import opened Exchange

  /** A step of the manager or of a module. */
  predicate OfRound(l: Label) {
    !(l == Store || l == StoreFails || l == Push || l == CountName || l == Wake)
  }

  // ---------------------------------------------------------------- a measure

  function Gap(a: nat, b: nat): nat {
    if a <= b then b - a else 0
  }

  /** How far the manager is from the end of the round, up to the packets it still has to remove. */
  function Stage(s: State): nat {
    var n := |s.mods|;
    match s.mpc
    case SettingFrom(k) => n + 3 + 3 * Gap(k, n)
    case SettingTo(k) => n + 2 + 3 * Gap(k, n)
    case Raising(k) => n + 1 + 3 * Gap(k, n)
    case WaitingFor(k) => 2 + Gap(k, n)
    case AtClear => 2
    case Popping(_) => 1
    case AtLock => 0
    case Failed => 0
  }

  function Left(s: State): nat {
    if s.mpc.Popping? then s.mpc.left else 0
  }

  /** How many steps a module has left in a round over the packets from .. to. */
  function WorkOf(m: Module, from: nat, to: nat): nat {
    match m.pc
    case Blocked => if m.sem == 0 then 0 else 2 * Gap(from, to) + 5
    case AtFrom => 2 * Gap(from, to) + 4
    case AtTest => 2 * Gap(m.next, to) + 2
    case AtRead => 2 * Gap(m.next, to) + 1
    case AtNotify => 1
  }

  function Work(mods: seq<Module>, from: nat, to: nat): nat {
    if mods == [] then 0 else WorkOf(mods[0], from, to) + Work(mods[1..], from, to)
  }

  /** The measure: tokens, stage of the manager, packets to remove, steps left to the modules. */
  predicate Falls(s: State, s': State) {
    || s'.tokens < s.tokens
    || (s'.tokens == s.tokens && Stage(s') < Stage(s))
    || (s'.tokens == s.tokens && Stage(s') == Stage(s) && Left(s') < Left(s))
    || (s'.tokens == s.tokens && Stage(s') == Stage(s) && Left(s') == Left(s) && Steps(s') < Steps(s))
  }

  function Steps(s: State): nat {
    Work(s.mods, s.fromNo, s.toNo)
  }

  lemma {:induction false} WorkFalls(mods: seq<Module>, j: nat, m: Module, from: nat, to: nat)
    requires j < |mods| && WorkOf(m, from, to) < WorkOf(mods[j], from, to)
    ensures Work(mods[j := m], from, to) < Work(mods, from, to)
  {
    var mods' := mods[j := m];
    if j == 0 {
      assert mods'[1..] == mods[1..];
    } else {
      WorkFalls(mods[1..], j - 1, m, from, to);
      assert mods'[1..] == mods[1..][j - 1 := m];
    }
  }

  lemma OwnWorkFalls(s: State, l: Label, j: nat)
    requires Inv(s) && Enabled(s, l) && Actor(l) == j
    ensures j < |Step(s, l).mods| && WorkOf(Step(s, l).mods[j], s.fromNo, s.toNo) < WorkOf(s.mods[j], s.fromNo, s.toNo)
  {
    AtWork(s, j);
    if l == Test(j) { WrapTells(s.mods[j].next, s.toNo); }
  }

  lemma OnlyOwn(s: State, l: Label, j: nat)
    requires Enabled(s, l) && Actor(l) == j
    ensures j < |Step(s, l).mods| && Step(s, l) == s.(mods := s.mods[j := Step(s, l).mods[j]])
  {
  }

  lemma ModuleFalls(s: State, l: Label)
    requires Inv(s) && Enabled(s, l) && Actor(l) >= 0
    ensures Falls(s, Step(s, l))
  {
    var j := Actor(l);
    OwnWorkFalls(s, l, j);
    OnlyOwn(s, l, j);
    OthersKeep(s, j, Step(s, l).mods[j]);
  }

  lemma OthersKeep(s: State, j: nat, m: Module)
    requires j < |s.mods| && WorkOf(m, s.fromNo, s.toNo) < WorkOf(s.mods[j], s.fromNo, s.toNo)
    ensures Falls(s, s.(mods := s.mods[j := m]))
  {
    WorkFalls(s.mods, j, m, s.fromNo, s.toNo);
  }

  lemma ManagerFalls(s: State, l: Label)
    requires Inv(s) && Enabled(s, l) && OfRound(l) && Actor(l) < 0
    ensures Falls(s, Step(s, l))
  {
    if l == BeginClear { BeginClearInv(s); }
  }

  /** Every step of the manager or a module lowers the measure. */
  lemma RoundFalls(s: State, l: Label)
    requires Inv(s) && Enabled(s, l) && OfRound(l)
    ensures Falls(s, Step(s, l))
  {
    if Actor(l) >= 0 { ModuleFalls(s, l); } else { ManagerFalls(s, l); }
  }

  /** The receiver does not touch it, except for the token it adds. */
  lemma ReceiverKeeps(s: State, l: Label)
    requires Inv(s) && Enabled(s, l) && !OfRound(l)
    ensures var s' := Step(s, l);
            && Stage(s') == Stage(s) && Left(s') == Left(s) && Steps(s') == Steps(s)
            && s'.tokens == s.tokens + if l == Wake then 1 else 0
  {
  }

  // ---------------------------------------------------------------- no deadlock

  lemma ModuleCanStep(s: State, j: nat) returns (l: Label)
    requires Inv(s) && j < |s.mods| && !s.mods[j].Idle()
    ensures Enabled(s, l) && Actor(l) == j
  {
    AtWork(s, j);
    match s.mods[j].pc
    case Blocked => l := Take(j);
    case AtFrom => l := Begin(j);
    case AtTest => l := Test(j);
    case AtRead => l := Read(j);
    case AtNotify => l := Release(j);
  }

  /** Unless the manager sleeps for want of a token, the manager or a module can go on. */
  lemma CanStep(s: State) returns (l: Label)
    requires Inv(s) && !(s.mpc == AtLock && s.tokens == 0)
    ensures Enabled(s, l) && OfRound(l)
  {
    match s.mpc
    case AtLock => l := Lock;
    case SettingFrom(_) => l := SetFrom;
    case SettingTo(_) => l := SetTo;
    case Raising(_) => l := Raise;
    case WaitingFor(k) =>
      if s.mods[k].sem == 0 {
        l := SeeZero;
      } else {
        assert Raised(s, s.mods[k]);
        l := ModuleCanStep(s, k);
      }
    case AtClear => l := BeginClear;
    case Popping(_) => l := Pop;
  }

  /** In every reachable state the round can go on, and however it does it comes nearer to its end. */
  lemma {:induction false} Progress(n: nat, ls: seq<Label>, s: State)
    requires n > 0 && Run(Init(n), ls, s)
    ensures (exists l :: OfRound(l) && Enabled(s, l)) <==> !(s.mpc == AtLock && s.tokens == 0)
    ensures forall l :: OfRound(l) && Enabled(s, l) ==> Falls(s, Step(s, l))
    ensures forall l :: !OfRound(l) && Enabled(s, l) ==>
              Stage(Step(s, l)) == Stage(s) && Left(Step(s, l)) == Left(s) && Steps(Step(s, l)) == Steps(s)
  {
    InitInv(n);
    RunInv(Init(n), ls, s);
    if s.mpc == AtLock && s.tokens == 0 {
      forall l | OfRound(l)
        ensures !Enabled(s, l)
      {
        AsleepIsStill(s, l);
      }
    } else {
      var l := CanStep(s);
    }
    forall l | OfRound(l) && Enabled(s, l)
      ensures Falls(s, Step(s, l))
    {
      RoundFalls(s, l);
    }
    forall l | !OfRound(l) && Enabled(s, l)
      ensures Stage(Step(s, l)) == Stage(s) && Left(Step(s, l)) == Left(s) && Steps(Step(s, l)) == Steps(s)
    {
      ReceiverKeeps(s, l);
    }
  }

  lemma AsleepIsStill(s: State, l: Label)
    requires Inv(s) && s.mpc == AtLock && s.tokens == 0 && OfRound(l)
    ensures !Enabled(s, l)
  {
  }

  /** The labels are all of the manager or of modules. */
  predicate AllOfRound(ls: seq<Label>) {
    forall i :: 0 <= i < |ls| ==> OfRound(ls[i])
  }

  lemma ReceiverStays(s: State, l: Label)
    requires Enabled(s, l) && OfRound(l)
    ensures Step(s, l).rpc == s.rpc && Step(s, l).pushed == s.pushed && Step(s, l).written == s.written
  {
  }

  lemma {:induction false} RunCons(s: State, l: Label, rest: seq<Label>, s': State)
    requires Enabled(s, l) && Run(Step(s, l), rest, s') && OfRound(l) && AllOfRound(rest)
    ensures Run(s, [l] + rest, s') && AllOfRound([l] + rest)
  {
    assert ([l] + rest)[1..] == rest;
  }

  /**
   * From every state in which the receiver waits for a packet, the manager and the modules
   * alone come to rest, with every stored packet removed.
   */
  lemma {:induction false} Drains(s: State) returns (ls: seq<Label>, s': State)
    requires Inv(s) && s.rpc == Listening
    ensures AllOfRound(ls) && Run(s, ls, s') && Inv(s')
    ensures s'.mpc == AtLock && s'.tokens == 0 && s'.queue == 0 && s'.popped == s.written
    decreases s.tokens, Stage(s), Left(s), Steps(s)
  {
    if s.mpc == AtLock && s.tokens == 0 {
      ls, s' := [], s;
    } else {
      var l := CanStep(s);
      RoundFalls(s, l);
      StepInv(s, l);
      ReceiverStays(s, l);
      var rest;
      rest, s' := Drains(Step(s, l));
      ls := [l] + rest;
      RunCons(s, l, rest, s');
    }
  }

  /** And in whatever order they go on, they come to rest in no other state. */
  lemma RestIsEmpty(s: State)
    requires Inv(s) && s.rpc == Listening && (forall l :: OfRound(l) ==> !Enabled(s, l))
    ensures s.mpc == AtLock && s.tokens == 0 && s.queue == 0 && s.popped == s.written
  {
    if !(s.mpc == AtLock && s.tokens == 0) {
      var l := CanStep(s);
    }
  }
}
