/** The two sliding samples that the Wilcoxon, Kolmogorov and Pearson tests compare. */
module SampleWindow {
  /** The values of all metrics in one test interval. */
  datatype Observation = Observation(metrics: seq<int>)

  /** sample_old and sample_new, oldest observation first. */
  datatype Window = Window(oldSample: seq<Observation>, newSample: seq<Observation>)

  /** The shift of wkp_update. */
  function Update(w: Window, oldSize: nat, newSize: nat, x: Observation, paused: bool): Window
    requires 0 < oldSize && 0 < newSize
  {
    if |w.oldSample| != oldSize then w.(oldSample := w.oldSample + [x])
    else if |w.newSample| != newSize then w.(newSample := w.newSample + [x])
    else if paused then w.(newSample := w.newSample[1..] + [x])
    else Window(w.oldSample[1..] + [w.newSample[0]], w.newSample[1..] + [x])
  }

  /** pause_update_when_attack, and the tests that raised an alarm for some metric. */
  predicate Pauses(mode: int, wmw: bool, ks: bool, pcs: bool) {
    (mode == 1 && (wmw || ks || pcs)) || (mode == 2 && wmw && ks && pcs)
  }

  /** 1 if the test raised an alarm for some metric. */
  function Alarmed(wasAttack: seq<bool>): nat {
    if exists i :: 0 <= i < |wasAttack| && wasAttack[i] then 1 else 0
  }

  /**
   * Mode 1 pauses as soon as one of the three tests raised an alarm, mode 2 only when all did,
   * no other mode at all.
   */
  lemma PausesIff(mode: int, wmw: seq<bool>, ks: seq<bool>, pcs: seq<bool>)
    ensures Pauses(mode, true in wmw, true in ks, true in pcs) <==>
              var alarmed := Alarmed(wmw) + Alarmed(ks) + Alarmed(pcs);
              (mode == 1 && alarmed >= 1) || (mode == 2 && alarmed == 3)
  {
  }

  /** The updates of one endpoint; paused: whether sample_old was paused. */
  datatype Log = Nothing | Updated(before: Log, x: Observation, paused: bool)

  function Arrived(log: Log): seq<Observation> {
    match log
    case Nothing => []
    case Updated(before, x, _) => Arrived(before) + [x]
  }

  predicate NoPause(log: Log) {
    log.Updated? ==> !log.paused && NoPause(log.before)
  }

  function Run(oldSize: nat, newSize: nat, log: Log): Window
    requires 0 < oldSize && 0 < newSize
  {
    match log
    case Nothing => Window([], [])
    case Updated(before, x, paused) => Update(Run(oldSize, newSize, before), oldSize, newSize, x, paused)
  }

  /**
   * What sample_old has been offered: the first oldSize observations, and every later
   * one whose turn to leave sample_new, newSize observations after it came, was not paused.
   */
  function Kept(oldSize: nat, newSize: nat, log: Log): seq<Observation> {
    match log
    case Nothing => []
    case Updated(before, _, paused) => Keep(oldSize, newSize, Kept(oldSize, newSize, before), Arrived(log), paused)
  }

  /** kept: what was kept before the last of xs. */
  function Keep(oldSize: nat, newSize: nat, kept: seq<Observation>, xs: seq<Observation>, paused: bool)
    : seq<Observation>
  {
    if |xs| <= oldSize then xs
    else kept + if |xs| <= oldSize + newSize || paused then [] else [xs[|xs| - 1 - newSize]]
  }

  function Last<T>(s: seq<T>, n: nat): (r: seq<T>)
    ensures |r| == if n < |s| then n else |s|
  {
    if n < |s| then s[|s| - n..] else s
  }

  lemma DropAppend<T>(s: seq<T>, x: T, n: nat)
    requires n <= |s|
    ensures (s + [x])[n..] == s[n..] + [x]
  {
  }

  lemma LastShifts<T>(s: seq<T>, n: nat, x: T)
    requires 0 < n
    ensures Last(s + [x], n) == if |s| < n then s + [x] else Last(s, n)[1..] + [x]
  {
  }

  /** One observation when sample_old is full: kept and tail are what the samples show the ends of. */
  lemma OneMore(oldSize: nat, newSize: nat, w: Window, kept: seq<Observation>, tail: seq<Observation>, x: Observation,
                paused: bool)
    requires 0 < oldSize <= |kept| && 0 < newSize
    requires w == Window(Last(kept, oldSize), Last(tail, newSize))
    ensures var left := if |tail| < newSize || paused then [] else [tail[|tail| - newSize]];
            Update(w, oldSize, newSize, x, paused) == Window(Last(kept + left, oldSize), Last(tail + [x], newSize))
  {
    LastShifts(tail, newSize, x);
    assert kept + [] == kept;
    if |tail| >= newSize {
      LastShifts(kept, oldSize, tail[|tail| - newSize]);
    }
  }

  /** The samples show the ends of what was kept and of what came after the first oldSize observations. */
  predicate Shows(w: Window, oldSize: nat, newSize: nat, kept: seq<Observation>, xs: seq<Observation>) {
    && w.oldSample == Last(kept, oldSize)
    && w.newSample == if |xs| <= oldSize then [] else Last(xs[oldSize..], newSize)
  }

  predicate KeptEnough(oldSize: nat, kept: seq<Observation>, xs: seq<Observation>) {
    if |xs| < oldSize then kept == xs else |kept| >= oldSize
  }

  lemma ShowsMore(w: Window, oldSize: nat, newSize: nat, kept: seq<Observation>, before: seq<Observation>,
                  x: Observation,
                  paused: bool, xs: seq<Observation>)
    requires 0 < oldSize && 0 < newSize && xs == before + [x]
    requires Shows(w, oldSize, newSize, kept, before) && KeptEnough(oldSize, kept, before)
    ensures Shows(Update(w, oldSize, newSize, x, paused), oldSize, newSize, Keep(oldSize, newSize, kept, xs, paused),
                  xs)
    ensures KeptEnough(oldSize, Keep(oldSize, newSize, kept, xs, paused), xs)
  {
    if |before| >= oldSize {
      DropAppend(before, x, oldSize);
      OneMore(oldSize, newSize, w, kept, before[oldSize..], x, paused);
    }
  }

  /**
   * Over every run: sample_new holds the most recent observations, and sample_old
   * the most recent of those that were kept.
   */
  lemma {:induction false} SamplesAre(oldSize: nat, newSize: nat, log: Log)
    requires 0 < oldSize && 0 < newSize
    ensures Shows(Run(oldSize, newSize, log), oldSize, newSize, Kept(oldSize, newSize, log), Arrived(log))
    ensures KeptEnough(oldSize, Kept(oldSize, newSize, log), Arrived(log))
  {
    match log
    case Nothing =>
    case Updated(before, x, paused) =>
      SamplesAre(oldSize, newSize, before);
      ShowsMore(Run(oldSize, newSize, before), oldSize, newSize, Kept(oldSize, newSize, before), Arrived(before), x,
                paused, Arrived(log));
  }

  /** Where sample_old ends, when everything is kept. */
  function End(oldSize: nat, newSize: nat, xs: seq<Observation>): (e: nat)
    ensures e <= |xs|
  {
    if |xs| <= oldSize then |xs| else if |xs| <= oldSize + newSize then oldSize else |xs| - newSize
  }

  /** With no pause in sight both samples together are the most recent observations, in order of arrival. */
  lemma {:induction false} NeverPaused(oldSize: nat, newSize: nat, log: Log)
    requires 0 < oldSize && 0 < newSize && NoPause(log)
    ensures var w := Run(oldSize, newSize, log);
            w.oldSample + w.newSample == Last(Arrived(log), oldSize + newSize)
  {
    SamplesAre(oldSize, newSize, log);
    AllKept(oldSize, newSize, log);
    Joined(Run(oldSize, newSize, log), oldSize, newSize, Kept(oldSize, newSize, log), Arrived(log));
  }

  lemma Joined(w: Window, oldSize: nat, newSize: nat, kept: seq<Observation>, xs: seq<Observation>)
    requires Shows(w, oldSize, newSize, kept, xs) && kept == xs[..End(oldSize, newSize, xs)]
    ensures w.oldSample + w.newSample == Last(xs, oldSize + newSize)
  {
  }

  lemma {:induction false} AllKept(oldSize: nat, newSize: nat, log: Log)
    requires NoPause(log)
    ensures Kept(oldSize, newSize, log) == Arrived(log)[..End(oldSize, newSize, Arrived(log))]
  {
    if log.Updated? {
      AllKept(oldSize, newSize, log.before);
      KeepAll(oldSize, newSize, Arrived(log.before), log.x);
    }
  }

  lemma KeepAll(oldSize: nat, newSize: nat, before: seq<Observation>, x: Observation)
    ensures var xs := before + [x];
            Keep(oldSize, newSize, before[..End(oldSize, newSize, before)], xs, false)
              == xs[..End(oldSize, newSize, xs)]
  {
  }

  /** a is b with some elements left out. */
  predicate Subsequence<T(==)>(a: seq<T>, b: seq<T>) {
    a == [] || (b != [] &&
      if a[|a| - 1] == b[|b| - 1] then Subsequence(a[..|a| - 1], b[..|b| - 1]) || Subsequence(a, b[..|b| - 1])
      else Subsequence(a, b[..|b| - 1]))
  }

  lemma {:induction false} SubsequenceSelf<T>(a: seq<T>)
    ensures Subsequence(a, a)
  {
    if a != [] { SubsequenceSelf(a[..|a| - 1]); }
  }

  lemma {:induction false} SubsequenceLast<T>(a: seq<T>, b: seq<T>, n: nat)
    requires Subsequence(a, b)
    ensures Subsequence(Last(a, n), b)
  {
    if a != [] && n > 0 {
      var a', b' := a[..|a| - 1], b[..|b| - 1];
      var r := Last(a, n);
      if a[|a| - 1] == b[|b| - 1] && Subsequence(a', b') {
        SubsequenceLast(a', b', n - 1);
        assert r[..|r| - 1] == Last(a', n - 1);
      } else {
        SubsequenceLast(a, b', n);
      }
    }
  }

  lemma {:induction false} KeptInOrder(oldSize: nat, newSize: nat, log: Log)
    ensures Subsequence(Kept(oldSize, newSize, log), Arrived(log)[..End(oldSize, newSize, Arrived(log))])
  {
    if log.Updated? {
      KeptInOrder(oldSize, newSize, log.before);
      InOrderMore(oldSize, newSize, Kept(oldSize, newSize, log.before), Arrived(log.before), log.x, log.paused);
    }
  }

  lemma {:induction false} InOrderMore(oldSize: nat, newSize: nat, kept: seq<Observation>, before: seq<Observation>,
                                       x: Observation,
                    paused: bool)
    requires Subsequence(kept, before[..End(oldSize, newSize, before)])
    ensures var xs := before + [x];
            Subsequence(Keep(oldSize, newSize, kept, xs, paused), xs[..End(oldSize, newSize, xs)])
  {
    var xs := before + [x];
    var keep, end := Keep(oldSize, newSize, kept, xs, paused), End(oldSize, newSize, xs);
    if |xs| <= oldSize {
      assert keep == xs == xs[..end];
      SubsequenceSelf(xs);
    } else if |xs| <= oldSize + newSize {
      assert keep == kept && xs[..end] == before[..End(oldSize, newSize, before)];
    } else {
      assert keep == kept + (if paused then [] else [xs[|xs| - 1 - newSize]]) && end == |xs| - newSize;
      LeavesInOrder(newSize, kept, before, xs, paused);
    }
  }

  /** An observation leaves sample_new, and is kept or not. */
  lemma LeavesInOrder(newSize: nat, kept: seq<Observation>, before: seq<Observation>, xs: seq<Observation>,
                      paused: bool)
    requires newSize < |xs| == |before| + 1 && before <= xs && Subsequence(kept, before[..|before| - newSize])
    ensures Subsequence(kept + if paused then [] else [xs[|xs| - 1 - newSize]], xs[..|xs| - newSize])
  {
    var left := xs[|xs| - 1 - newSize];
    assert xs[..|xs| - newSize] == before[..|before| - newSize] + [left];
    assert kept + [] == kept;
    Extend(kept, before[..|before| - newSize], left);
  }

  lemma {:induction false} Extend<T>(a: seq<T>, b: seq<T>, x: T)
    requires Subsequence(a, b)
    ensures Subsequence(a, b + [x]) && Subsequence(a + [x], b + [x])
  {
    assert (b + [x])[..|b|] == b && (a + [x])[..|a|] == a;
  }

  /** Whatever was paused, sample_old is some of what came before sample_new, in order. */
  lemma {:induction false} OldInOrder(oldSize: nat, newSize: nat, log: Log, w: Window, xs: seq<Observation>)
    requires 0 < oldSize && 0 < newSize && w == Run(oldSize, newSize, log) && xs == Arrived(log)
    ensures |w.newSample| <= |xs| && w.newSample == xs[|xs| - |w.newSample|..]
    ensures Subsequence(w.oldSample, xs[..|xs| - |w.newSample|])
  {
    var kept := Kept(oldSize, newSize, log);
    SamplesAre(oldSize, newSize, log);
    KeptInOrder(oldSize, newSize, log);
    ShowsInOrder(w, oldSize, newSize, kept, xs);
  }

  lemma {:induction false} ShowsInOrder(w: Window, oldSize: nat, newSize: nat, kept: seq<Observation>,
                                        xs: seq<Observation>)
    requires Shows(w, oldSize, newSize, kept, xs) && Subsequence(kept, xs[..End(oldSize, newSize, xs)])
    ensures |w.newSample| <= |xs| && w.newSample == xs[|xs| - |w.newSample|..]
            && Subsequence(w.oldSample, xs[..|xs| - |w.newSample|])
  {
    SubsequenceLast(kept, xs[..End(oldSize, newSize, xs)], oldSize);
    assert |xs| - |w.newSample| == End(oldSize, newSize, xs);
  }

  // ---------------------------------------------------------------- the update

  /** The part of Params the update works on. */
  class Params {
    var oldSample: seq<Observation>
    var newSample: seq<Observation>
    var lastWmwTestWasAttack: seq<bool>
    var lastKsTestWasAttack: seq<bool>
    var lastPcsTestWasAttack: seq<bool>
    var wkpUpdated: bool

    function Samples(): Window
      reads this
    {
      Window(oldSample, newSample)
    }

    /** A new endpoint, with its first observation. */
    constructor (metrics: nat, first: Observation)
      ensures |lastWmwTestWasAttack| == |lastKsTestWasAttack| == |lastPcsTestWasAttack| == metrics
      ensures Samples() == Window([first], [])
    {
      oldSample, newSample, wkpUpdated := [first], [], false;
      lastWmwTestWasAttack, lastKsTestWasAttack := seq(metrics, _ => false), seq(metrics, _ => false);
      lastPcsTestWasAttack := seq(metrics, _ => false);
    }

    method AtLeastOne(ghost metrics: nat) returns (wmw: bool, ks: bool, pcs: bool)
      requires |lastWmwTestWasAttack| == |lastKsTestWasAttack| == |lastPcsTestWasAttack| == metrics
      ensures wmw <==> true in lastWmwTestWasAttack
      ensures ks <==> true in lastKsTestWasAttack
      ensures pcs <==> true in lastPcsTestWasAttack
    {
      wmw, ks, pcs := false, false, false;
      for i := 0 to |lastWmwTestWasAttack|
        invariant wmw <==> true in lastWmwTestWasAttack[..i]
        invariant ks <==> true in lastKsTestWasAttack[..i]
        invariant pcs <==> true in lastPcsTestWasAttack[..i]
      {
        if lastWmwTestWasAttack[i] { wmw := true; }
        if lastKsTestWasAttack[i] { ks := true; }
        if lastPcsTestWasAttack[i] { pcs := true; }
      }
    }

    method WkpUpdate(oldSize: nat, newSize: nat, mode: int, x: Observation, ghost metrics: nat)
      requires 0 < oldSize && 0 < newSize
      requires |lastWmwTestWasAttack| == |lastKsTestWasAttack| == |lastPcsTestWasAttack| == metrics
      modifies this`oldSample, this`newSample, this`wkpUpdated
      ensures Samples() == Update(old(Samples()), oldSize, newSize, x,
                Pauses(mode, true in lastWmwTestWasAttack, true in lastKsTestWasAttack, true in lastPcsTestWasAttack))
      ensures |old(oldSample)| == oldSize && |old(newSample)| == newSize ==> wkpUpdated
      ensures !(|old(oldSample)| == oldSize && |old(newSample)| == newSize) ==> wkpUpdated == old(wkpUpdated)
    {
      if |oldSample| != oldSize {
        oldSample := oldSample + [x];
        return;
      } else if |newSample| != newSize {
        newSample := newSample + [x];
        return;
      }
      var wmw, ks, pcs := AtLeastOne(metrics);
      if (mode == 1 && (wmw || ks || pcs)) || (mode == 2 && wmw && ks && pcs) {
        newSample := newSample[1..];
        newSample := newSample + [x];
      } else {
        oldSample := oldSample[1..];
        oldSample := oldSample + [newSample[0]];
        newSample := newSample[1..];
        newSample := newSample + [x];
      }
      wkpUpdated := true;
    }
  }
}
