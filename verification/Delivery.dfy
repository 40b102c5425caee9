/** The hand-over protocol running over packet files: what a module reads from the directory is what was pushed. */
module FileExchange {
  import opened Bytes
  import opened FileCounters
  import Exchange

  type Packet = seq<byte>

  /**
   * files: the packet directory; names: IpfixFile::fileNames; log: every packet ever
   * stored (history); got: what each module read.
   */
  datatype State = State(x: Exchange.State, files: map<Count, Packet>, names: seq<Count>,
                         log: seq<Packet>, got: seq<seq<Packet>>)

  /** A protocol step; data is the packet that a Store step stores. */
  datatype Act = Act(l: Exchange.Label, data: Packet)

  function Init(n: nat): State {
    State(Exchange.Init(n), map[], [], [], seq(n, _ => []))
  }

  predicate Enabled(s: State, a: Act) {
    Exchange.Enabled(s.x, a.l)
  }

  function Step(s: State, a: Act): State
    requires Enabled(s, a)
  {
    var s' := s.(x := Exchange.Step(s.x, a.l));
    match a.l
    case Store =>
      s'.(files := s.files[s.x.nameCounter := a.data], names := s.names + [s.x.nameCounter], log := s.log + [a.data])
    case Pop =>
      if s.names == [] then s' else s'.(files := s.files - {s.names[0]}, names := s.names[1..])
    case Read(j) =>
      var i := s.x.mods[j].i;
      if i in s.files && j < |s.got| then s'.(got := s.got[j := s.got[j] + [s.files[i]]]) else s'
    case _ => s'
  }

  ghost predicate Run(s: State, acts: seq<Act>, s': State)
    decreases |acts|
  {
    if acts == [] then s' == s
    else Enabled(s, acts[0]) && Run(Step(s, acts[0]), acts[1..], s')
  }

  function Labels(acts: seq<Act>): (ls: seq<Exchange.Label>)
    ensures |ls| == |acts|
  {
    seq(|acts|, i requires 0 <= i < |acts| => acts[i].l)
  }

  /** The directory holds exactly the outstanding packets, each under its own number. */
  ghost predicate Filed(s: State) {
    && |s.log| == s.x.written
    && |s.names| == s.x.written - s.x.popped
    && (forall p :: s.x.popped <= p < s.x.written ==> s.names[p - s.x.popped] == Wrap(p))
    && (forall p :: s.x.popped <= p < s.x.written ==> Wrap(p) in s.files && s.files[Wrap(p)] == s.log[p])
    && (forall c :: c in s.files ==> c in s.names)
  }

  /** Module j read the packets whose numbers it was handed. */
  ghost predicate GotWhatWasStored(s: State, j: nat)
    requires j < |s.got| == |s.x.mods|
  {
    && |s.got[j]| == |s.x.mods[j].delivered|
    && forall k :: 0 <= k < |s.got[j]| ==>
        s.x.mods[j].delivered[k] < |s.log| && s.got[j][k] == s.log[s.x.mods[j].delivered[k]]
  }

  ghost predicate Inv(s: State) {
    && Exchange.Inv(s.x) && |s.got| == |s.x.mods|
    && Filed(s)
    && forall j :: 0 <= j < |s.got| ==> GotWhatWasStored(s, j)
  }

  lemma WrapsDiffer(p: nat, q: nat)
    requires p < q < p + MAX_FILES
    ensures Wrap(p) != Wrap(q)
  {
  }

  lemma StoreFiled(s: State, data: Packet)
    requires Inv(s) && Enabled(s, Act(Exchange.Store, data))
    ensures Filed(Step(s, Act(Exchange.Store, data)))
  {
    var s' := Step(s, Act(Exchange.Store, data));
    assert s.x.written == s.x.pushed && s.x.nameCounter == Wrap(s.x.written);
    forall p | s'.x.popped <= p < s'.x.written
      ensures Wrap(p) in s'.files && s'.files[Wrap(p)] == s'.log[p]
    {
      if p < s.x.written { WrapsDiffer(p, s.x.written); }
    }
  }

  lemma PopFiled(s: State, data: Packet)
    requires Inv(s) && Enabled(s, Act(Exchange.Pop, data))
    ensures Filed(Step(s, Act(Exchange.Pop, data)))
  {
    var s' := Step(s, Act(Exchange.Pop, data));
    assert s.x.popped < s.x.written && s.names[0] == Wrap(s.x.popped);
    forall p | s'.x.popped <= p < s'.x.written
      ensures Wrap(p) in s'.files && s'.files[Wrap(p)] == s'.log[p] && s'.names[p - s'.x.popped] == Wrap(p)
    {
      WrapsDiffer(s.x.popped, p);
      assert s'.names[p - s'.x.popped] == s.names[p - s.x.popped];
    }
    forall c | c in s'.files
      ensures c in s'.names
    {
      var x :| 0 <= x < |s.names| && s.names[x] == c;
      assert s'.names[x - 1] == c;
    }
  }

  /** The file a module opens exists and holds the packet of that number. */
  lemma ReadFinds(s: State, j: nat)
    requires Inv(s) && j < |s.x.mods| && s.x.mods[j].pc == Exchange.AtRead
    ensures var m := s.x.mods[j];
            m.i in s.files && m.next < |s.log| && s.files[m.i] == s.log[m.next]
  {
    Exchange.AtWork(s.x, j);
  }

  lemma StepFiled(s: State, a: Act)
    requires Inv(s) && Enabled(s, a)
    ensures Filed(Step(s, a)) && s.log <= Step(s, a).log
  {
    if a.l == Exchange.Store {
      StoreFiled(s, a.data);
    } else if a.l == Exchange.Pop {
      PopFiled(s, a.data);
    } else {
      FiledFrame(s, Step(s, a), a.l);
    }
  }

  lemma FiledFrame(s: State, s': State, l: Exchange.Label)
    requires Filed(s) && Exchange.Enabled(s.x, l) && l != Exchange.Store && l != Exchange.Pop
    requires s'.x == Exchange.Step(s.x, l) && s'.files == s.files && s'.names == s.names && s'.log == s.log
    ensures Filed(s')
  {
    assert s'.x.written == s.x.written && s'.x.popped == s.x.popped;
  }

  lemma StepGot(s: State, a: Act, j: nat)
    requires Inv(s) && Enabled(s, a) && j < |s.got| && s.log <= Step(s, a).log
    ensures |Step(s, a).got| == |Step(s, a).x.mods| == |s.got|
    ensures GotWhatWasStored(Step(s, a), j)
  {
    Untouched(s.x, a.l, j);
    assert GotWhatWasStored(s, j);
    if a.l == Exchange.Read(j) { ReadFinds(s, j); }
  }

  lemma StepInv(s: State, a: Act)
    requires Inv(s) && Enabled(s, a)
    ensures Inv(Step(s, a))
  {
    Exchange.StepInv(s.x, a.l);
    StepFiled(s, a);
    forall j | 0 <= j < |s.got|
      ensures |Step(s, a).got| == |Step(s, a).x.mods| == |s.got| && GotWhatWasStored(Step(s, a), j)
    {
      StepGot(s, a, j);
    }
    StepGot(s, a, 0);
  }

  lemma Untouched(x: Exchange.State, l: Exchange.Label, j: nat)
    requires Exchange.Enabled(x, l) && j < |x.mods|
    ensures |Exchange.Step(x, l).mods| == |x.mods|
    ensures Exchange.Step(x, l).mods[j].delivered
            == x.mods[j].delivered + if l == Exchange.Read(j) then [x.mods[j].next] else []
  {
  }

  lemma {:induction false} RunInv(s: State, acts: seq<Act>, s': State)
    requires Inv(s) && Run(s, acts, s')
    ensures Inv(s') && Exchange.Run(s.x, Labels(acts), s'.x)
    decreases |acts|
  {
    if acts != [] {
      StepInv(s, acts[0]);
      RunInv(Step(s, acts[0]), acts[1..], s');
      assert Labels(acts)[1..] == Labels(acts[1..]);
    }
  }

  /** Over packet files, in every interleaving, every read finds its file, and the file holds the right packet. */
  lemma {:induction false} EveryReadFindsItsPacket(n: nat, acts: seq<Act>, s: State)
    requires n > 0 && Run(Init(n), acts, s)
    ensures |s.got| == |s.x.mods|
    ensures forall j :: 0 <= j < |s.x.mods| && s.x.mods[j].pc == Exchange.AtRead ==>
              && s.x.mods[j].i in s.files && s.x.mods[j].next < |s.log|
              && s.files[s.x.mods[j].i] == s.log[s.x.mods[j].next]
    ensures forall j :: 0 <= j < |s.got| ==> GotWhatWasStored(s, j)
  {
    Exchange.InitInv(n);
    RunInv(Init(n), acts, s);
    forall j | 0 <= j < |s.x.mods| && s.x.mods[j].pc == Exchange.AtRead
      ensures s.x.mods[j].i in s.files && s.x.mods[j].next < |s.log|
              && s.files[s.x.mods[j].i] == s.log[s.x.mods[j].next]
    {
      ReadFinds(s, j);
    }
  }

  /** Between rounds each module has read exactly the removed packets, in order, if and only if the run was on time. */
  lemma {:induction false} ModulesReadEverything(n: nat, acts: seq<Act>, s: State)
    requires n > 0 && Run(Init(n), acts, s) && s.x.mpc == Exchange.AtLock
    ensures s.x.popped <= |s.log|
    ensures (forall j :: 0 <= j < |s.got| ==> s.got[j] == s.log[..s.x.popped])
            <==> Exchange.OnTime(Exchange.Init(n), Labels(acts))
  {
    Exchange.InitInv(n);
    RunInv(Init(n), acts, s);
    if Exchange.OnTime(Exchange.Init(n), Labels(acts)) {
      Exchange.DeliveredIffOnTime(n, Labels(acts), s.x);
      forall j | 0 <= j < |s.got|
        ensures s.got[j] == s.log[..s.x.popped]
      {
        assert GotWhatWasStored(s, j);
      }
    } else {
      var j, x := Exchange.TooLateLoses(Exchange.Init(n), Labels(acts), s.x);
      Exchange.MissingCounts(s.x, j);
      assert GotWhatWasStored(s, j);
    }
  }
}

/** The hand-over protocol running over the shared-memory ring. */
module RingExchange {
  import opened Bytes
  import PacketRing
  import RingRuns
  import FileCounters
  import Exchange

  datatype State = State(x: Exchange.State, r: RingRuns.State)

  datatype Act = Act(l: Exchange.Label, data: PacketRing.Packet)

  function Init(mem: seq<byte>, n: nat): State {
    State(Exchange.Init(n), RingRuns.Init(mem, n))
  }

  /** Storing succeeds or fails as writePacket decides; no wiping write is made. */
  ghost predicate Enabled(s: State, a: Act) {
    && Exchange.Enabled(s.x, a.l)
    && (a.l == Exchange.Store || a.l == Exchange.StoreFails ==>
          && |a.data| < U16 && s.r.ring.InBounds()
          && !PacketRing.Wipes(s.r.ring, a.data)
          && PacketRing.Write(s.r.ring, a.data).1 == (a.l == Exchange.Store))
  }

  function Effect(r: RingRuns.State, a: Act): RingRuns.State {
    match a.l
    case Store => RingRuns.Step(r, RingRuns.Write(a.data))
    case StoreFails => RingRuns.Step(r, RingRuns.Write(a.data))
    case Read(j) => RingRuns.Step(r, RingRuns.Read(j))
    case Pop => RingRuns.Step(r, RingRuns.Remove)
    case _ => r
  }

  ghost function Step(s: State, a: Act): State
    requires Enabled(s, a)
  {
    State(Exchange.Step(s.x, a.l), Effect(s.r, a))
  }

  ghost predicate Run(s: State, acts: seq<Act>, s': State)
    decreases |acts|
  {
    if acts == [] then s' == s
    else Enabled(s, acts[0]) && Run(Step(s, acts[0]), acts[1..], s')
  }

  /** No range end is published after a module of the round has finished. */
  ghost predicate OnTime(s: State, acts: seq<Act>)
    decreases |acts|
  {
    acts == [] || (Enabled(s, acts[0]) ==>
                     !(acts[0].l == Exchange.SetTo && Exchange.Late(s.x)) && OnTime(Step(s, acts[0]), acts[1..]))
  }

  /**
   * Module j's own cursor made at most as many reads as the protocol counts. It was never
   * overtaken exactly as long as it was handed every removed packet.
   */
  ghost predicate Follows(x: Exchange.State, r: RingRuns.State, j: nat)
    requires j < |x.mods| == |r.got|
  {
    && |r.got[j]| <= |x.mods[j].delivered|
    && if j in r.overtaken then Exchange.Missing(x, j)
       else |r.got[j]| == |x.mods[j].delivered| && Exchange.Sound(x, j)
  }

  ghost predicate Coupled(x: Exchange.State, r: RingRuns.State) {
    && |r.accepted| == x.written
    && |r.removed| == x.popped
    && |r.got| == |r.cursors| == |x.mods|
    && forall j :: 0 <= j < |x.mods| ==> Follows(x, r, j)
  }

  ghost predicate Inv(s: State) {
    && Exchange.Inv(s.x)
    && RingRuns.Inv(s.r)
    && Coupled(s.x, s.r)
  }

  /** The protocol only lets a module read as many packets as were stored. */
  lemma ReadsAreDisciplined(s: State, j: nat)
    requires Inv(s) && Exchange.Enabled(s.x, Exchange.Read(j))
    ensures RingRuns.Enabled(s.r, RingRuns.Read(j))
    ensures |s.r.got[j]| <= s.x.mods[j].next < |s.r.accepted|
  {
    assert Follows(s.x, s.r, j);
    Exchange.AtWork(s.x, j);
    Exchange.AtReadSound(s.x, j);
  }

  lemma RemovalsAreDisciplined(s: State)
    requires Inv(s) && Exchange.Enabled(s.x, Exchange.Pop)
    ensures RingRuns.Enabled(s.r, RingRuns.Remove)
  {
  }

  /** The ring step, if any, that a protocol step performs is one the discipline permits. */
  lemma EffectInv(s: State, a: Act)
    requires Inv(s) && Enabled(s, a)
    ensures RingRuns.Inv(Effect(s.r, a))
  {
    match a.l
    case Store => RingRuns.WriteInv(s.r, a.data);
    case StoreFails => RingRuns.WriteInv(s.r, a.data);
    case Read(j) =>
      ReadsAreDisciplined(s, j);
      RingRuns.ReadInv(s.r, j);
    case Pop =>
      RemovalsAreDisciplined(s);
      RingRuns.RemoveInv(s.r);
    case _ =>
  }

  /** How a ring step changes what is counted. */
  lemma EffectCounts(s: State, a: Act)
    requires Inv(s) && Enabled(s, a)
    ensures |Effect(s.r, a).accepted| == |s.r.accepted| + (if a.l == Exchange.Store then 1 else 0)
    ensures |Effect(s.r, a).removed| == |s.r.removed| + (if a.l == Exchange.Pop then 1 else 0)
    ensures |Effect(s.r, a).got| == |Effect(s.r, a).cursors| == |s.r.got|
    ensures Effect(s.r, a).overtaken == s.r.overtaken + (if a.l == Exchange.Pop then RingRuns.Behind(s.r) else {})
  {
    if a.l == Exchange.Pop {
      RemovalsAreDisciplined(s);
      RingRuns.RemoveInv(s.r);
      var before, after, w :| RingRuns.Laid(s.r, before, after, w);
    }
  }

  /** What a module's cursor has read grows by its own reads only. */
  lemma EffectReads(s: State, a: Act, j: nat)
    requires Inv(s) && Enabled(s, a) && j < |s.r.got| == |Effect(s.r, a).got|
    ensures a.l != Exchange.Read(j) ==> Effect(s.r, a).got[j] == s.r.got[j]
    ensures |Effect(s.r, a).got[j]| <= |s.r.got[j]| + if a.l == Exchange.Read(j) then 1 else 0
    ensures a.l == Exchange.Read(j) && j !in s.r.overtaken ==>
              |s.r.got[j]| < |s.r.accepted| && Effect(s.r, a).got[j] == s.r.got[j] + [s.r.accepted[|s.r.got[j]|]]
  {
    if a.l == Exchange.Read(j) {
      ReadsAreDisciplined(s, j);
      RingRuns.ReadInv(s.r, j);
    }
  }

  lemma StepFollows(s: State, a: Act, j: nat)
    requires Inv(s) && Enabled(s, a) && j < |s.x.mods|
    ensures |Step(s, a).x.mods| == |Step(s, a).r.got| == |s.x.mods|
    ensures Follows(Step(s, a).x, Step(s, a).r, j)
  {
    assert Follows(s.x, s.r, j);
    EffectCounts(s, a);
    EffectReads(s, a, j);
    Exchange.HandedOut(s.x, a.l, j);
    if j in s.r.overtaken {
      Exchange.MissingStays(s.x, a.l, j);
    } else {
      Exchange.SoundStep(s.x, a.l, j);
      SoundReaches(s.x, j);
    }
  }

  lemma SoundReaches(x: Exchange.State, j: nat)
    requires Exchange.Inv(x) && Exchange.Sound(x, j)
    ensures x.popped <= |x.mods[j].delivered|
  {
    if Exchange.Fit(x, j) { Exchange.FitReaches(x, j); }
  }

  lemma StepInv(s: State, a: Act)
    requires Inv(s) && Enabled(s, a)
    ensures Inv(Step(s, a))
  {
    var s' := Step(s, a);
    Exchange.StepInv(s.x, a.l);
    EffectInv(s, a);
    EffectCounts(s, a);
    Exchange.PoppedGrows(s.x, a.l);
    Exchange.ModulesCount(s.x, a.l);
    forall j | 0 <= j < |s'.x.mods|
      ensures Follows(s'.x, s'.r, j)
    {
      StepFollows(s, a, j);
    }
  }

  function Labels(acts: seq<Act>): (ls: seq<Exchange.Label>)
    ensures |ls| == |acts|
  {
    seq(|acts|, i requires 0 <= i < |acts| => acts[i].l)
  }

  lemma {:induction false} RunInv(s: State, acts: seq<Act>, s': State)
    requires Inv(s) && Run(s, acts, s')
    ensures Inv(s') && Exchange.Run(s.x, Labels(acts), s'.x)
    decreases |acts|
  {
    if acts != [] {
      StepInv(s, acts[0]);
      RunInv(Step(s, acts[0]), acts[1..], s');
      assert Labels(acts)[1..] == Labels(acts[1..]);
    }
  }

  lemma InitInv(mem: seq<byte>, n: nat)
    requires n > 0
    ensures Inv(Init(mem, n))
  {
    Exchange.InitInv(n);
    RingRuns.InitInv(mem, n);
    var s := Init(mem, n);
    forall j | 0 <= j < |s.x.mods|
      ensures Follows(s.x, s.r, j)
    {
      assert Exchange.Fit(s.x, j);
    }
  }

  lemma CursorFollows(s: State, j: nat)
    requires Inv(s) && j < |s.x.mods|
    ensures j in s.r.overtaken <==> Exchange.Missing(s.x, j)
    ensures j !in s.r.overtaken ==> s.x.mods[j].delivered == Exchange.Upto(|s.r.got[j]|) && s.r.got[j] <= s.r.accepted
  {
    assert Follows(s.x, s.r, j);
    if j !in s.r.overtaken {
      Exchange.SoundNotMissing(s.x, j);
      RingRuns.GotFirst(s.r, j);
    }
  }

  /**
   * What the cursors were handed, in every interleaving of the receiver, the manager and
   * any number of modules: a module that misses no removed packet was handed exactly the
   * first stored packets, octet for octet; the others, and only they, were overtaken.
   */
  lemma {:induction false} CursorsFollow(mem: seq<byte>, n: nat, acts: seq<Act>, s: State)
    requires n > 0 && Run(Init(mem, n), acts, s)
    ensures |s.r.got| == |s.x.mods|
    ensures forall j :: 0 <= j < |s.x.mods| ==> (j in s.r.overtaken <==> Exchange.Missing(s.x, j))
    ensures forall j :: 0 <= j < |s.x.mods| && j !in s.r.overtaken ==>
              s.x.mods[j].delivered == Exchange.Upto(|s.r.got[j]|) && s.r.got[j] <= s.r.accepted
  {
    InitInv(mem, n);
    RunInv(Init(mem, n), acts, s);
    forall j | 0 <= j < |s.x.mods|
      ensures j in s.r.overtaken <==> Exchange.Missing(s.x, j)
      ensures j !in s.r.overtaken ==> s.x.mods[j].delivered == Exchange.Upto(|s.r.got[j]|) && s.r.got[j] <= s.r.accepted
    {
      CursorFollows(s, j);
    }
  }

  /**
   * End to end over shared memory: between rounds each module's own cursor has been
   * handed exactly the removed packets, octet for octet and in order, if and only if no
   * range end was published too late.
   */
  lemma {:induction false} EndToEnd(mem: seq<byte>, n: nat, acts: seq<Act>, s: State)
    requires n > 0 && Run(Init(mem, n), acts, s) && s.x.mpc == Exchange.AtLock
    ensures s.x.popped <= |s.r.accepted|
    ensures (forall j :: 0 <= j < |s.r.got| ==> s.r.got[j] == s.r.accepted[..s.x.popped])
            <==> Exchange.OnTime(Exchange.Init(n), Labels(acts))
  {
    InitInv(mem, n);
    RunInv(Init(mem, n), acts, s);
    if Exchange.OnTime(Exchange.Init(n), Labels(acts)) {
      Exchange.DeliveredIffOnTime(n, Labels(acts), s.x);
      forall j | 0 <= j < |s.r.got|
        ensures s.r.got[j] == s.r.accepted[..s.x.popped]
      {
        AllHanded(s, j);
      }
    } else {
      var j, x := Exchange.TooLateLoses(Exchange.Init(n), Labels(acts), s.x);
      Exchange.MissingCounts(s.x, j);
      assert Follows(s.x, s.r, j);
    }
  }

  lemma AllHanded(s: State, j: nat)
    requires Inv(s) && j < |s.x.mods| && s.x.mods[j].delivered == Exchange.Upto(s.x.popped)
    ensures s.x.popped <= |s.r.accepted| && s.r.got[j] == s.r.accepted[..s.x.popped]
  {
    CursorFollows(s, j);
    Exchange.AllNotMissing(s.x, j);
  }

  /** With one module nothing is ever late, so its cursor is right in every run. */
  lemma {:induction false} OneModuleFollows(mem: seq<byte>, n: nat, acts: seq<Act>, s: State)
    requires n == 1 && Run(Init(mem, n), acts, s)
    ensures |s.r.got| == 1 && 0 !in s.r.overtaken && s.r.got[0] <= s.r.accepted
    ensures s.x.mpc == Exchange.AtLock ==> s.x.popped <= |s.r.accepted| && s.r.got[0] == s.r.accepted[..s.x.popped]
  {
    InitInv(mem, n);
    RunInv(Init(mem, n), acts, s);
    Exchange.OneModuleSound(n, Labels(acts), s.x);
    CursorFollows(s, 0);
    if s.x.mpc == Exchange.AtLock { AllHanded(s, 0); }
  }

  /** A read by a module that was handed everything before it. */
  lemma DueRead(s: State, j: nat, data: PacketRing.Packet)
    requires Inv(s) && Exchange.Enabled(s.x, Exchange.Read(j)) && j !in s.r.overtaken
    ensures |s.r.got[j]| == s.x.mods[j].next < |s.r.accepted|
    ensures var s' := Step(s, Act(Exchange.Read(j), data));
            j < |s'.r.got| && s'.r.got[j] == s.r.accepted[..s.x.mods[j].next + 1]
  {
    assert Follows(s.x, s.r, j);
    CursorFollows(s, j);
    Exchange.AtReadSound(s.x, j);
    ReadsAreDisciplined(s, j);
    EffectReads(s, Act(Exchange.Read(j), data), j);
    RingRuns.NextOf(s.r.accepted, 0, |s.r.got[j]|);
  }

  /** A read by a module that misses packets: its cursor is behind by at least as many. */
  lemma LagRead(s: State, j: nat)
    requires Inv(s) && Exchange.Enabled(s.x, Exchange.Read(j)) && j in s.r.overtaken
    ensures Exchange.Gone(s.x, j) != {} && |s.r.got[j]| + |Exchange.Gone(s.x, j)| <= s.x.mods[j].next
    ensures s.x.fromNo == |s.r.removed| && s.x.mods[j].delivered != Exchange.Upto(s.x.mods[j].next)
  {
    assert Follows(s.x, s.r, j);
    Exchange.AtReadGone(s.x, j);
    Exchange.AtReadSound(s.x, j);
  }

  /** A read by a module that misses none. */
  lemma DueReadAt(s: State, j: nat)
    requires Inv(s) && Exchange.Enabled(s.x, Exchange.Read(j)) && j !in s.r.overtaken
    ensures Exchange.Gone(s.x, j) == {} && s.x.fromNo == |s.r.removed|
    ensures s.x.mods[j].delivered == Exchange.Upto(s.x.mods[j].next)
  {
    assert Follows(s.x, s.r, j);
    Exchange.AtReadGone(s.x, j);
    Exchange.AtReadSound(s.x, j);
    Exchange.SoundNotMissing(s.x, j);
  }

  /**
   * Which packet a read hands over. The protocol means packet number next; the cursor just
   * takes the next one of its own. It is at that packet if and only if the module was
   * handed every packet before it, and then the octets are the right ones. Otherwise the
   * cursor lags behind by at least the number of removed packets the module misses, and
   * that many reads at the beginning of the round are of packets already removed.
   */
  lemma {:induction false} ReadIsDueIff(mem: seq<byte>, n: nat, acts: seq<Act>, s: State, j: nat,
                                        data: PacketRing.Packet)
    requires n > 0 && Run(Init(mem, n), acts, s) && Exchange.Enabled(s.x, Exchange.Read(j))
    ensures j < |s.r.got| && s.x.mods[j].next < |s.r.accepted|
    ensures |s.r.got[j]| == s.x.mods[j].next <==> s.x.mods[j].delivered == Exchange.Upto(s.x.mods[j].next)
    ensures |s.r.got[j]| == s.x.mods[j].next ==>
              var s' := Step(s, Act(Exchange.Read(j), data));
              j < |s'.r.got| && s'.r.got[j] == s.r.accepted[..s.x.mods[j].next + 1]
    ensures |s.r.got[j]| != s.x.mods[j].next <==> Exchange.Gone(s.x, j) != {}
    ensures |s.r.got[j]| <= s.x.mods[j].next - |Exchange.Gone(s.x, j)|
    ensures s.x.mods[j].next - s.x.fromNo < |Exchange.Gone(s.x, j)| ==> |s.r.got[j]| < |s.r.removed|
  {
    InitInv(mem, n);
    RunInv(Init(mem, n), acts, s);
    ReadsAreDisciplined(s, j);
    if j in s.r.overtaken {
      LagRead(s, j);
    } else {
      DueRead(s, j, data);
      DueReadAt(s, j);
    }
  }

  // ---------------------------------------------------------------- a late module reads what was removed

  ghost predicate Reachable(mem: seq<byte>, n: nat, s: State) {
    exists acts :: Run(Init(mem, n), acts, s)
  }

  lemma {:induction false} RunSnoc(s: State, acts: seq<Act>, s': State, a: Act)
    requires Run(s, acts, s') && Enabled(s', a)
    ensures Run(s, acts + [a], Step(s', a))
    decreases |acts|
  {
    if acts == [] {
      assert [a][1..] == [];
    } else {
      RunSnoc(Step(s, acts[0]), acts[1..], s', a);
      assert (acts + [a])[1..] == acts[1..] + [a];
    }
  }

  lemma Reaches(mem: seq<byte>, n: nat, s: State, a: Act)
    requires Reachable(mem, n, s) && Enabled(s, a)
    ensures Reachable(mem, n, Step(s, a))
  {
    var acts :| Run(Init(mem, n), acts, s);
    RunSnoc(Init(mem, n), acts, s, a);
  }

  /** A step that leaves the ring alone, from x to x'. */
  lemma Goes(mem: seq<byte>, n: nat, r: RingRuns.State, x: Exchange.State, l: Exchange.Label, x': Exchange.State)
    requires Reachable(mem, n, State(x, r)) && Exchange.Enabled(x, l) && Exchange.Step(x, l) == x'
    requires !(l == Exchange.Store || l == Exchange.StoreFails || l.Read? || l == Exchange.Pop)
    ensures Reachable(mem, n, State(x', r))
  {
    Reaches(mem, n, State(x, r), Act(l, []));
  }

  const IDLE := Exchange.Module(0, Exchange.Blocked, 0, 0, [])

  /** The receiver stores a packet of one octet in a fresh stretch of the ring. */
  lemma Writes(mem: seq<byte>, n: nat, x: Exchange.State, r: RingRuns.State)
    returns (x': Exchange.State, r': RingRuns.State)
    requires Reachable(mem, n, State(x, r)) && x.rpc == Exchange.Listening && x.queue + 1 < FileCounters.MAX_FILES
    requires r.ring.InBounds() && !r.ring.writeBeforeRead && r.ring.wp + 3 < |r.ring.mem|
    ensures Reachable(mem, n, State(x', r')) && x' == x.(rpc := Exchange.Stored, written := x.written + 1)
    ensures r'.ring.InBounds() && !r'.ring.writeBeforeRead
    ensures r'.ring.wp == r.ring.wp + 3 && |r'.ring.mem| == |r.ring.mem|
  {
    RingRuns.StoredInPlace(r, [7]);
    Reaches(mem, n, State(x, r), Act(Exchange.Store, [7]));
    x', r' := Exchange.Step(x, Exchange.Store), RingRuns.Step(r, RingRuns.Write([7]));
  }

  lemma Pushes(mem: seq<byte>, n: nat, x: Exchange.State, r: RingRuns.State) returns (x': Exchange.State)
    requires Reachable(mem, n, State(x, r)) && x.rpc == Exchange.Stored
    ensures Reachable(mem, n, State(x', r))
    ensures x' == x.(rpc := Exchange.Queued, queue := x.queue + 1, newest := FileCounters.Bump(x.newest),
                     pushed := x.pushed + 1)
  {
    x' := Exchange.Step(x, Exchange.Push);
    Goes(mem, n, r, x, Exchange.Push, x');
  }

  lemma CountsName(mem: seq<byte>, n: nat, x: Exchange.State, r: RingRuns.State) returns (x': Exchange.State)
    requires Reachable(mem, n, State(x, r)) && x.rpc == Exchange.Queued
    ensures Reachable(mem, n, State(x', r))
    ensures x' == x.(rpc := Exchange.Exported, nameCounter := FileCounters.Bump(x.nameCounter))
  {
    x' := Exchange.Step(x, Exchange.CountName);
    Goes(mem, n, r, x, Exchange.CountName, x');
  }

  lemma WakesUp(mem: seq<byte>, n: nat, x: Exchange.State, r: RingRuns.State) returns (x': Exchange.State)
    requires Reachable(mem, n, State(x, r)) && x.rpc == Exchange.Exported
    ensures Reachable(mem, n, State(x', r)) && x' == x.(rpc := Exchange.Listening, tokens := x.tokens + 1)
  {
    x' := Exchange.Step(x, Exchange.Wake);
    Goes(mem, n, r, x, Exchange.Wake, x');
  }

  /** What the receiver has done to the protocol's state once a packet is stored and counted. */
  function Received(x: Exchange.State): Exchange.State {
    x.(queue := x.queue + 1, newest := FileCounters.Bump(x.newest), pushed := x.pushed + 1,
       nameCounter := FileCounters.Bump(x.nameCounter), written := x.written + 1, tokens := x.tokens + 1)
  }

  lemma StoresOne(mem: seq<byte>, n: nat, x: Exchange.State, r: RingRuns.State)
    returns (x': Exchange.State, r': RingRuns.State)
    requires Reachable(mem, n, State(x, r)) && x.rpc == Exchange.Listening && x.queue + 1 < FileCounters.MAX_FILES
    requires r.ring.InBounds() && !r.ring.writeBeforeRead && r.ring.wp + 3 < |r.ring.mem|
    ensures Reachable(mem, n, State(x', r')) && x' == Received(x)
    ensures r'.ring.InBounds() && !r'.ring.writeBeforeRead
    ensures r'.ring.wp == r.ring.wp + 3 && |r'.ring.mem| == |r.ring.mem|
  {
    x', r' := Writes(mem, n, x, r);
    x' := Pushes(mem, n, x', r');
    x' := CountsName(mem, n, x', r');
    x' := WakesUp(mem, n, x', r');
  }

  /** The receiver wakes the manager without a packet. */
  lemma Wakes(mem: seq<byte>, n: nat, x: Exchange.State, r: RingRuns.State) returns (x': Exchange.State)
    requires Reachable(mem, n, State(x, r)) && x.rpc == Exchange.Listening && r.ring.InBounds()
    ensures Reachable(mem, n, State(x', r)) && x' == x.(tokens := x.tokens + 1)
  {
    Reaches(mem, n, State(x, r), Act(Exchange.StoreFails, []));
    x' := Exchange.Step(x, Exchange.StoreFails);
    x' := WakesUp(mem, n, x', r);
  }

  /** Module k raised by the manager. */
  function Raised(x: Exchange.State, k: nat): Exchange.State
    requires k < |x.mods|
  {
    x.(mods := x.mods[k := x.mods[k].(sem := x.mods[k].sem + 2)],
       mpc := if k + 1 == |x.mods| then Exchange.WaitingFor(0) else Exchange.SettingFrom(k + 1))
  }

  lemma RaiseStep(x: Exchange.State, k: nat)
    requires x.mpc == Exchange.Raising(k) && k < |x.mods|
    ensures Exchange.Step(x, Exchange.Raise) == Raised(x, k)
  {
  }

  lemma Raises(mem: seq<byte>, n: nat, x: Exchange.State, r: RingRuns.State, k: nat) returns (x': Exchange.State)
    requires Reachable(mem, n, State(x, r)) && x.mpc == Exchange.Raising(k) && k < |x.mods|
    ensures Reachable(mem, n, State(x', r)) && x' == Raised(x, k)
  {
    x' := Raised(x, k);
    RaiseStep(x, k);
    Goes(mem, n, r, x, Exchange.Raise, x');
  }

  /** The range published. */
  function Announced(x: Exchange.State, k: nat): Exchange.State {
    x.(from := x.oldest, fromNo := x.popped, to := x.newest, toNo := x.pushed, mpc := Exchange.Raising(k))
  }

  lemma Announces(mem: seq<byte>, n: nat, x: Exchange.State, r: RingRuns.State, k: nat) returns (x': Exchange.State)
    requires Reachable(mem, n, State(x, r)) && x.mpc == Exchange.SettingFrom(k)
    ensures Reachable(mem, n, State(x', r)) && x' == Announced(x, k)
  {
    var x1 := Exchange.Step(x, Exchange.SetFrom);
    Goes(mem, n, r, x, Exchange.SetFrom, x1);
    x' := Exchange.Step(x1, Exchange.SetTo);
    Goes(mem, n, r, x1, Exchange.SetTo, x');
  }

  /** The manager publishes the range to module k and raises it. */
  lemma Publishes(mem: seq<byte>, n: nat, x: Exchange.State, r: RingRuns.State, k: nat) returns (x': Exchange.State)
    requires Reachable(mem, n, State(x, r)) && x.mpc == Exchange.SettingFrom(k) && k < |x.mods|
    ensures Reachable(mem, n, State(x', r)) && x' == Raised(Announced(x, k), k)
  {
    x' := Announces(mem, n, x, r, k);
    x' := Raises(mem, n, x', r, k);
  }

  /** A raised module goes to its import loop. */
  lemma Enters(mem: seq<byte>, n: nat, x: Exchange.State, r: RingRuns.State, j: nat) returns (x': Exchange.State)
    requires Reachable(mem, n, State(x, r)) && j < |x.mods| && x.mods[j] == IDLE.(sem := 2)
    ensures Reachable(mem, n, State(x', r))
    ensures x' == x.(mods := x.mods[j := Exchange.Module(1, Exchange.AtTest, x.from, x.fromNo, [])])
  {
    var x1 := Exchange.Step(x, Exchange.Take(j));
    Goes(mem, n, r, x, Exchange.Take(j), x1);
    assert x1.mods[j] == IDLE.(sem := 1, pc := Exchange.AtFrom);
    x' := Exchange.Step(x1, Exchange.Begin(j));
    Goes(mem, n, r, x1, Exchange.Begin(j), x');
    assert x1.mods[j := x'.mods[j]] == x.mods[j := x'.mods[j]];
  }

  /** A module at the end of the range leaves. */
  lemma Leaves(mem: seq<byte>, n: nat, x: Exchange.State, r: RingRuns.State, j: nat) returns (x': Exchange.State)
    requires Reachable(mem, n, State(x, r)) && j < |x.mods|
    requires x.mods[j].sem == 1 && x.mods[j].pc == Exchange.AtTest && x.mods[j].i == x.to
    ensures Reachable(mem, n, State(x', r))
    ensures x' == x.(mods := x.mods[j := x.mods[j].(sem := 0, pc := Exchange.Blocked)])
  {
    var x1 := Exchange.Step(x, Exchange.Test(j));
    Goes(mem, n, r, x, Exchange.Test(j), x1);
    assert x1.mods[j] == x.mods[j].(pc := Exchange.AtNotify);
    x' := Exchange.Step(x1, Exchange.Release(j));
    Goes(mem, n, r, x1, Exchange.Release(j), x');
    assert x1.mods[j := x'.mods[j]] == x.mods[j := x'.mods[j]];
  }

  /** Two modules, the counters of a run with the given packets pushed and removed, the manager at m. */
  predicate At(x: Exchange.State, m: Exchange.ManagerPc, pushed: nat, popped: nat) {
    && x.rpc == Exchange.Listening && x.mpc == m && |x.mods| == 2
    && popped <= pushed < 10 && x.queue == pushed - popped
    && x.newest == x.pushed == pushed && x.oldest == x.popped == popped
  }

  predicate Room(r: RingRuns.State, octets: nat) {
    r.ring.InBounds() && !r.ring.writeBeforeRead && r.ring.wp + octets < |r.ring.mem|
  }

  /** The manager is woken without a packet. */
  lemma Woken(mem: seq<byte>) returns (x: Exchange.State, r: RingRuns.State)
    requires |mem| >= 10
    ensures Reachable(mem, 2, State(x, r)) && At(x, Exchange.SettingFrom(0), 0, 0) && x.mods == [IDLE, IDLE]
    ensures Room(r, 6)
  {
    x, r := Exchange.Init(2), RingRuns.Init(mem, 2);
    assert Run(Init(mem, 2), [], State(x, r));
    x := Wakes(mem, 2, x, r);
    var x1 := Exchange.Step(x, Exchange.Lock);
    Goes(mem, 2, r, x, Exchange.Lock, x1);
    x := x1;
  }

  /** It notifies the first module, which is through at once. */
  lemma FirstThrough(mem: seq<byte>) returns (x: Exchange.State, r: RingRuns.State)
    requires |mem| >= 10
    ensures Reachable(mem, 2, State(x, r)) && At(x, Exchange.SettingFrom(1), 0, 0) && x.mods == [IDLE, IDLE]
    ensures Room(r, 6)
  {
    x, r := Woken(mem);
    x := Publishes(mem, 2, x, r, 0);
    x := Enters(mem, 2, x, r, 0);
    x := Leaves(mem, 2, x, r, 0);
  }

  lemma FirstStored(mem: seq<byte>) returns (x: Exchange.State, r: RingRuns.State)
    requires |mem| >= 10
    ensures Reachable(mem, 2, State(x, r)) && At(x, Exchange.SettingFrom(1), 1, 0) && x.mods == [IDLE, IDLE]
    ensures Room(r, 3)
  {
    x, r := FirstThrough(mem);
    x, r := StoresOne(mem, 2, x, r);
  }

  /** Now a packet is stored and published to the second module only; another one follows. */
  lemma PublishedLate(mem: seq<byte>) returns (x: Exchange.State, r: RingRuns.State)
    requires |mem| >= 10
    ensures Reachable(mem, 2, State(x, r)) && At(x, Exchange.WaitingFor(0), 2, 0)
    ensures x.mods == [IDLE, IDLE.(sem := 2)] && x.from == x.fromNo == 0 && x.to == x.toNo == 1 && x.tokens > 0
  {
    x, r := FirstStored(mem);
    x := Publishes(mem, 2, x, r, 1);
    x, r := StoresOne(mem, 2, x, r);
  }

  lemma SecondAtRead(mem: seq<byte>) returns (x: Exchange.State, r: RingRuns.State)
    requires |mem| >= 10
    ensures Reachable(mem, 2, State(x, r)) && At(x, Exchange.WaitingFor(0), 2, 0)
    ensures x.mods == [IDLE, Exchange.Module(1, Exchange.AtRead, 0, 0, [])] && x.from == 0 && x.to == 1 && x.tokens > 0
  {
    x, r := PublishedLate(mem);
    x := Enters(mem, 2, x, r, 1);
    Goes(mem, 2, r, x, Exchange.Test(1), Exchange.Step(x, Exchange.Test(1)));
    x := Exchange.Step(x, Exchange.Test(1));
  }

  /** The second module imports the packet. */
  lemma SecondImports(mem: seq<byte>) returns (x: Exchange.State, r: RingRuns.State)
    requires |mem| >= 10
    ensures Reachable(mem, 2, State(x, r)) && At(x, Exchange.WaitingFor(0), 2, 0)
    ensures x.mods[0] == IDLE && x.mods[1].sem == 0 && x.from == 0 && x.to == 1 && x.tokens > 0
  {
    x, r := SecondAtRead(mem);
    Reaches(mem, 2, State(x, r), Act(Exchange.Read(1), []));
    x, r := Exchange.Step(x, Exchange.Read(1)), RingRuns.Step(r, RingRuns.Read(1));
    x := Leaves(mem, 2, x, r, 1);
  }

  lemma SeenThrough(mem: seq<byte>) returns (x: Exchange.State, r: RingRuns.State)
    requires |mem| >= 10
    ensures Reachable(mem, 2, State(x, r)) && At(x, Exchange.AtClear, 2, 0)
    ensures x.mods[0] == IDLE && x.from == 0 && x.to == 1 && x.tokens > 0
  {
    x, r := SecondImports(mem);
    Goes(mem, 2, r, x, Exchange.SeeZero, x.(mpc := Exchange.WaitingFor(1)));
    Goes(mem, 2, r, x.(mpc := Exchange.WaitingFor(1)), Exchange.SeeZero, x.(mpc := Exchange.AtClear));
    x := x.(mpc := Exchange.AtClear);
  }

  /** It begins to clear the range. */
  lemma Clearing(mem: seq<byte>) returns (x: Exchange.State, r: RingRuns.State)
    requires |mem| >= 10
    ensures Reachable(mem, 2, State(x, r)) && At(x, Exchange.Popping(1), 2, 0) && x.mods[0] == IDLE && x.tokens > 0
  {
    x, r := SeenThrough(mem);
    Goes(mem, 2, r, x, Exchange.BeginClear, x.(mpc := Exchange.Popping(1)));
    x := x.(mpc := Exchange.Popping(1));
  }

  /** The packet is removed. */
  lemma Cleared(mem: seq<byte>) returns (x: Exchange.State, r: RingRuns.State)
    requires |mem| >= 10
    ensures Reachable(mem, 2, State(x, r)) && At(x, Exchange.AtLock, 2, 1) && x.mods[0] == IDLE && x.tokens > 0
  {
    x, r := Clearing(mem);
    Reaches(mem, 2, State(x, r), Act(Exchange.Pop, []));
    x, r := Exchange.Step(x, Exchange.Pop), RingRuns.Step(r, RingRuns.Remove);
  }

  /** The manager starts the next round. */
  lemma FirstRemoved(mem: seq<byte>) returns (x: Exchange.State, r: RingRuns.State)
    requires |mem| >= 10
    ensures Reachable(mem, 2, State(x, r)) && At(x, Exchange.SettingFrom(0), 2, 1) && x.mods[0] == IDLE
  {
    x, r := Cleared(mem);
    var x1 := Exchange.Step(x, Exchange.Lock);
    Goes(mem, 2, r, x, Exchange.Lock, x1);
    x := x1;
  }

  /** The first module comes to its import loop, with a new packet to read. */
  lemma FirstAtTest(mem: seq<byte>) returns (x: Exchange.State, r: RingRuns.State)
    requires |mem| >= 10
    ensures Reachable(mem, 2, State(x, r)) && |x.mods| == 2 && x.popped == 1
    ensures x.mods[0].pc == Exchange.AtTest && x.mods[0].i != x.to && x.mods[0].delivered == []
  {
    x, r := FirstRemoved(mem);
    x := Publishes(mem, 2, x, r, 0);
    x := Enters(mem, 2, x, r, 0);
  }

  /** A module that was handed nothing has read nothing. */
  lemma NothingRead(mem: seq<byte>, n: nat, s: State, j: nat)
    requires n > 0 && Reachable(mem, n, s) && j < |s.x.mods| && s.x.mods[j].delivered == []
    ensures |s.r.got| == |s.x.mods| && s.r.got[j] == [] && |s.r.removed| == s.x.popped
  {
    var acts :| Run(Init(mem, n), acts, s);
    InitInv(mem, n);
    RunInv(Init(mem, n), acts, s);
    assert Follows(s.x, s.r, j);
  }

  /**
   * With two modules and without any wiping write, a state is reached in which a module is
   * about to read a packet that the collector has already removed from the ring.
   */
  lemma RemovedIsRead(mem: seq<byte>) returns (s: State)
    requires |mem| >= 10
    ensures Reachable(mem, 2, s) && Exchange.Enabled(s.x, Exchange.Read(0))
    ensures |s.r.got| == 2 && |s.r.got[0]| < |s.r.removed|
  {
    var x, r := FirstAtTest(mem);
    s := State(Exchange.Step(x, Exchange.Test(0)), r);
    Goes(mem, 2, r, x, Exchange.Test(0), s.x);
    NothingRead(mem, 2, s, 0);
  }
}
