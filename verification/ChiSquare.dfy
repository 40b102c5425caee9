/**
 * Pearson's chi-square test: cutting two samples into categories, and the test
 * statistic. Floating point numbers are modelled as reals; unsigned products wrap.
 */
module ChiSquare {
  import opened Bytes
  import opened RankTest
  import opened RealArithmetic

  // ---------------------------------------------------------------- lists

  /** std::list::remove. */
  function Remove(l: seq<int>, v: int): seq<int> {
    if l == [] then []
    else Remove(l[..|l| - 1], v) + if l[|l| - 1] == v then [] else [l[|l| - 1]]
  }

  function AtLeast(l: seq<int>, v: int): seq<int> {
    if l == [] then []
    else AtLeast(l[..|l| - 1], v) + if l[|l| - 1] < v then [] else [l[|l| - 1]]
  }

  lemma {:induction false} RemoveLast(l: seq<int>, x: int, v: int)
    ensures Remove(l + [x], v) == Remove(l, v) + if x == v then [] else [x]
  {
    assert (l + [x])[..|l|] == l;
  }

  lemma {:induction false} RemoveAtLeast(l: seq<int>, v: int)
    ensures Remove(AtLeast(l, v), v) == AtLeast(l, v + 1)
  {
    if l != [] {
      var front, x := l[..|l| - 1], l[|l| - 1];
      RemoveAtLeast(front, v);
      RemoveLast(AtLeast(front, v), x, v);
      assert AtLeast(front, v) + [] == AtLeast(front, v);
    }
  }

  lemma {:induction false} RemoveShrinks(l: seq<int>, v: int)
    ensures |Remove(l, v)| == |l| - Equal(l, v)
  {
    if l != [] { RemoveShrinks(l[..|l| - 1], v); }
  }

  lemma {:induction false} AtLeastCounts(l: seq<int>, v: int)
    ensures |AtLeast(l, v)| == |l| - Less(l, v)
  {
    if l != [] { AtLeastCounts(l[..|l| - 1], v); }
  }

  lemma {:induction false} AtLeastKeeps(l: seq<int>, v: int, x: int)
    requires x in AtLeast(l, v)
    ensures x in l && v <= x
  {
    if l != [] && !(x == l[|l| - 1] && v <= x) { AtLeastKeeps(l[..|l| - 1], v, x); }
  }

  lemma {:induction false} AtLeastFront(l: seq<int>, v: int, m: int)
    requires Sorted(l) && v <= m
    requires AtLeast(l, v) != [] ==> m <= AtLeast(l, v)[0]
    ensures AtLeast(l, m) == AtLeast(l, v)
  {
    if l != [] {
      var front, x := l[..|l| - 1], l[|l| - 1];
      var kept := AtLeast(front, v);
      AtLeastFront(front, v, m);
      if kept != [] {
        AtLeastKeeps(front, v, kept[0]);
      }
    }
  }

  lemma {:induction false} EqualsSome(l: seq<int>, v: int)
    requires v in l
    ensures Equal(l, v) > 0
  {
    if l[|l| - 1] != v { EqualsSome(l[..|l| - 1], v); }
  }

  /** l is what is left of the sorted sample when the values below v are gone. */
  predicate Rest(sample: seq<int>, l: seq<int>, v: int) {
    l == AtLeast(sample, v)
  }

  lemma RestRemove(sample: seq<int>, l: seq<int>, v: int)
    requires Rest(sample, l, v)
    ensures Rest(sample, Remove(l, v), v + 1)
  {
    RemoveAtLeast(sample, v);
  }

  /** The values below v that are gone, counted. */
  lemma {:induction false} RestBelow(sample: seq<int>, l: seq<int>, v: int)
    requires Rest(sample, l, v)
    ensures Less(sample, v) == |sample| - |l|
  {
    AtLeastCounts(sample, v);
  }

  lemma RestFront(sample: seq<int>, l: seq<int>, v: int, m: int)
    requires Sorted(sample) && Rest(sample, l, v) && l != [] && v <= m <= l[0]
    ensures Rest(sample, l, m)
  {
    AtLeastFront(sample, v, m);
  }

  lemma RestAfter(sample: seq<int>, l: seq<int>, v: int)
    requires Rest(sample, l, v) && l != []
    ensures v <= l[0]
  {
    AtLeastKeeps(sample, v, l[0]);
  }

  lemma {:induction false} Start(sample: seq<int>, lo: int)
    requires Sorted(sample) && sample != [] && lo <= sample[0]
    ensures Rest(sample, sample, lo) && Less(sample, lo) == 0
  {
    StartFrom(sample, lo);
    RestBelow(sample, sample, lo);
  }

  lemma {:induction false} StartFrom(l: seq<int>, lo: int)
    requires Sorted(l) && (l != [] ==> lo <= l[0])
    ensures AtLeast(l, lo) == l
  {
    if l != [] { StartFrom(l[..|l| - 1], lo); }
  }

  /** The smaller of the two fronts. */
  function Front(l1: seq<int>, l2: seq<int>): (m: int)
    requires l1 != [] && l2 != []
    ensures m == l1[0] || m == l2[0]
  {
    if l1[0] < l2[0] then l1[0] else l2[0]
  }

  // ---------------------------------------------------------------- what a category is

  /** The values in [lo, hi); last is the value that was removed last when the category was closed. */
  datatype Interval = Interval(lo: int, last: int, hi: int)

  /** The expected number of observations, out of k, for a sample of size lg. */
  function Expected(lg: nat, k: int, n: nat): real
    requires n > 0
  {
    (lg * k % U32) as real / n as real
  }

  predicate Enough(lg1: nat, lg2: nat, k: int)
    requires lg1 + lg2 > 0
  {
    Expected(lg1, k, lg1 + lg2) >= 5.0 && Expected(lg2, k, lg1 + lg2) >= 5.0
  }

  /** In whole numbers: neither product, as it is kept in 32 bits, is less than five times the number of values. */
  lemma EnoughIff(lg1: nat, lg2: nat, k: int, n: nat)
    requires n == lg1 + lg2 > 0
    ensures Enough(lg1, lg2, k) <==> lg1 * k % U32 >= 5 * n && lg2 * k % U32 >= 5 * n
  {
    AtLeastFive(lg1 * k % U32, n);
    AtLeastFive(lg2 * k % U32, n);
  }

  lemma AtLeastFive(product: nat, n: nat)
    requires n > 0
    ensures product as real / n as real >= 5.0 <==> product >= 5 * n
  {
    var q := product as real / n as real;
    assert q * n as real == product as real;
    if q >= 5.0 { assert (q - 5.0) * n as real >= 0.0; } else { assert (5.0 - q) * n as real > 0.0; }
  }

  /** How many values of both samples are in [lo, hi). */
  function Within(s1: seq<int>, s2: seq<int>, lo: int, hi: int): int {
    Less(s1, hi) - Less(s1, lo) + Less(s2, hi) - Less(s2, lo)
  }

  /** No category that starts at lo can be closed before last. */
  ghost predicate Short(s1: seq<int>, s2: seq<int>, lo: int, last: int)
    requires s1 != []
  {
    forall v :: lo <= v <= last ==> !Enough(|s1|, |s2|, Within(s1, s2, lo, v))
  }

  /**
   * The category counts the values of its interval, and is not empty. It is closed by the
   * first value that makes both expectations 5; the last one by the first value that uses
   * up a sample, and takes all the rest.
   */
  ghost predicate Cut(s1: seq<int>, s2: seq<int>, iv: Interval, n1: nat, n2: nat, final: bool) {
    && s1 != [] && s2 != []
    && iv.lo <= iv.last < iv.hi
    && n1 == Less(s1, iv.hi) - Less(s1, iv.lo)
    && n2 == Less(s2, iv.hi) - Less(s2, iv.lo)
    && n1 + n2 > 0
    && Less(s1, iv.last) < |s1| && Less(s2, iv.last) < |s2| && Short(s1, s2, iv.lo, iv.last)
    && if final then
         && Less(s1, iv.hi) == |s1| && Less(s2, iv.hi) == |s2|
         && (Less(s1, iv.last + 1) == |s1| || Less(s2, iv.last + 1) == |s2|)
       else
         && Enough(|s1|, |s2|, n1 + n2)
         && Less(s1, iv.last + 1) == Less(s1, iv.hi) && Less(s2, iv.last + 1) == Less(s2, iv.hi)
  }

  /** Consecutive intervals from lo on, one for each category. */
  ghost predicate Cuts(s1: seq<int>, s2: seq<int>, c1: seq<nat>, c2: seq<nat>, ivs: seq<Interval>, ended: bool) {
    && |c1| == |c2| == |ivs|
    && (forall i :: 0 <= i < |ivs| ==> Cut(s1, s2, ivs[i], c1[i], c2[i], ended && i == |ivs| - 1))
    && (forall i :: 0 <= i < |ivs| - 1 ==> ivs[i].hi == ivs[i + 1].lo)
  }

  /** Consecutive intervals that hold every value, and the sizes of their categories. */
  ghost predicate Categories(s1: seq<int>, s2: seq<int>, c1: seq<nat>, c2: seq<nat>, ivs: seq<Interval>) {
    && ivs != [] && Cuts(s1, s2, c1, c2, ivs, true)
    && Less(s1, ivs[0].lo) == 0 && Less(s2, ivs[0].lo) == 0
  }

  function Sum(c: seq<nat>): nat {
    if c == [] then 0 else Sum(c[..|c| - 1]) + c[|c| - 1]
  }

  // ---------------------------------------------------------------- the loops

  /** Removing the smallest values shortens the lists. */
  lemma {:induction false} FrontGoes(l1: seq<int>, l2: seq<int>, v: int)
    requires l1 != [] && l2 != [] && v == Front(l1, l2)
    ensures |Remove(l1, v)| <= |l1| && |Remove(l2, v)| <= |l2|
    ensures |Remove(l1, v)| + |Remove(l2, v)| < |l1| + |l2|
  {
    RemoveShrinks(l1, v);
    RemoveShrinks(l2, v);
    if v == l1[0] { EqualsSome(l1, v); } else { EqualsSome(l2, v); }
  }

  /** What is left of either sample after the values up to last. */
  lemma NextFront(s1: seq<int>, s2: seq<int>, r1: seq<int>, r2: seq<int>, last: int)
    requires Sorted(s1) && Sorted(s2)
    requires Rest(s1, r1, last + 1) && Rest(s2, r2, last + 1) && r1 != [] && r2 != []
    ensures last < Front(r1, r2) && Rest(s1, r1, Front(r1, r2)) && Rest(s2, r2, Front(r1, r2))
  {
    RestAfter(s1, r1, last + 1);
    RestAfter(s2, r2, last + 1);
    RestFront(s1, r1, last + 1, Front(r1, r2));
    RestFront(s2, r2, last + 1, Front(r1, r2));
  }

  /** The lists at the start of a category, before its last value and after it. */
  ghost predicate Filled(s1: seq<int>, s2: seq<int>, l1: seq<int>, l2: seq<int>, q1: seq<int>, q2: seq<int>,
                         r1: seq<int>, r2: seq<int>, last: int)
  {
    && l1 != [] && l2 != [] && Front(l1, l2) <= last
    && Rest(s1, l1, Front(l1, l2)) && Rest(s2, l2, Front(l1, l2))
    && Rest(s1, q1, last) && Rest(s2, q2, last) && q1 != [] && q2 != []
    && Rest(s1, r1, last + 1) && Rest(s2, r2, last + 1)
    && |r1| <= |q1| <= |l1| && |r2| <= |q2| <= |l2| && |r1| + |r2| < |q1| + |q2|
  }

  lemma {:induction false} LessGrows(s: seq<int>, v: int, w: int)
    requires v <= w
    ensures Less(s, v) <= Less(s, w) <= |s|
  {
    if s != [] { LessGrows(s[..|s| - 1], v, w); }
  }

  /** Between the value removed last and the next one nothing is counted. */
  lemma {:induction false} NothingBetween(s: seq<int>, r: seq<int>, v: int, u: int, w: int)
    requires Rest(s, r, v) && Rest(s, r, w) && v <= u <= w
    ensures Less(s, u) == Less(s, v)
  {
    RestBelow(s, r, v);
    RestBelow(s, r, w);
    LessGrows(s, v, u);
    LessGrows(s, u, w);
  }

  /** While the loop goes on, the category is too small for every value up to the next. */
  lemma StillShort(s1: seq<int>, s2: seq<int>, l1: seq<int>, l2: seq<int>, r1: seq<int>, r2: seq<int>, last: int,
                   min: int, k: nat)
    requires s1 != [] && l1 != [] && l2 != [] && k == |l1| - |r1| + |l2| - |r2| && !Enough(|s1|, |s2|, k)
    requires Rest(s1, l1, Front(l1, l2)) && Rest(s2, l2, Front(l1, l2)) && Rest(s1, r1, min) && Rest(s2, r2, min)
    requires if k == 0 then min == Front(l1, l2) else
               Short(s1, s2, Front(l1, l2), last) && Rest(s1, r1, last + 1) && Rest(s2, r2, last + 1)
    ensures Short(s1, s2, Front(l1, l2), min)
  {
    var lo := Front(l1, l2);
    forall v | lo <= v <= min
      ensures !Enough(|s1|, |s2|, Within(s1, s2, lo, v))
    {
      if k == 0 {
        assert v == lo;
      } else if v > last {
        NothingBetween(s1, r1, last + 1, v, min);
        NothingBetween(s2, r2, last + 1, v, min);
        RestBelow(s1, l1, lo);
        RestBelow(s2, l2, lo);
        RestBelow(s1, r1, last + 1);
        RestBelow(s2, r2, last + 1);
      }
    }
  }

  /**
   * The inner loop, which closes one category; ended: a sample has been used up.
   * q1, q2: what was left before the last value was removed.
   */
  method NextCategory(s1: seq<int>, s2: seq<int>, l1: seq<int>, l2: seq<int>)
    returns (r1: seq<int>, r2: seq<int>, n1: nat, n2: nat, ended: bool,
             ghost last: int, ghost q1: seq<int>, ghost q2: seq<int>)
    requires s1 != [] && s2 != [] && l1 != [] && l2 != [] && Sorted(s1) && Sorted(s2)
    requires Rest(s1, l1, Front(l1, l2)) && Rest(s2, l2, Front(l1, l2))
    ensures Filled(s1, s2, l1, l2, q1, q2, r1, r2, last) && Short(s1, s2, Front(l1, l2), last)
    ensures n1 == |l1| - |r1| && n2 == |l2| - |r2|
    ensures ended <==> r1 == [] || r2 == []
    ensures !ended ==> Enough(|s1|, |s2|, n1 + n2)
  {
    var lg1, lg2 := |s1|, |s2|;
    var n := lg1 + lg2;
    var min, k := Front(l1, l2), 0;
    var e1, e2 := 0.0, 0.0;
    r1, r2, n1, n2, ended, last, q1, q2 := l1, l2, 0, 0, false, min, l1, l2;
    while e1 < 5.0 || e2 < 5.0
      invariant r1 != [] && r2 != [] && min == Front(r1, r2) && Front(l1, l2) <= min
      invariant Rest(s1, r1, min) && Rest(s2, r2, min)
      invariant |r1| <= |l1| && |r2| <= |l2| && n1 == |l1| - |r1| && n2 == |l2| - |r2| && k == n1 + n2
      invariant e1 == Expected(lg1, k, n) && e2 == Expected(lg2, k, n)
      invariant k == 0 ==> min == Front(l1, l2)
      invariant k > 0 ==> Filled(s1, s2, l1, l2, q1, q2, r1, r2, last) && Short(s1, s2, Front(l1, l2), last)
      decreases |r1| + |r2|
    {
      StillShort(s1, s2, l1, l2, r1, r2, last, min, k);
      last, q1, q2 := min, r1, r2;
      var oldsize1, oldsize2 := |r1|, |r2|;
      r1, r2 := RemoveMin(s1, s2, l1, l2, r1, r2, min);
      n1 := n1 + (oldsize1 - |r1|);
      n2 := n2 + (oldsize2 - |r2|);
      k := n1 + n2;
      if r1 == [] || r2 == [] {
        ended := true;
        return;
      }
      e1, e2 := Expected(lg1, k, n), Expected(lg2, k, n);
      min := Front(r1, r2);
      NextFront(s1, s2, r1, r2, last);
    }
  }

  method RemoveMin(ghost s1: seq<int>, ghost s2: seq<int>, ghost l1: seq<int>, ghost l2: seq<int>,
                   q1: seq<int>, q2: seq<int>, min: int) returns (r1: seq<int>, r2: seq<int>)
    requires l1 != [] && l2 != [] && Rest(s1, l1, Front(l1, l2)) && Rest(s2, l2, Front(l1, l2))
    requires q1 != [] && q2 != [] && Front(l1, l2) <= min == Front(q1, q2) && Rest(s1, q1, min) && Rest(s2, q2, min)
    requires |q1| <= |l1| && |q2| <= |l2|
    ensures r1 == Remove(q1, min) && r2 == Remove(q2, min)
    ensures Filled(s1, s2, l1, l2, q1, q2, r1, r2, min)
  {
    FrontGoes(q1, q2, min);
    RestRemove(s1, q1, min);
    RestRemove(s2, q2, min);
    r1, r2 := Remove(q1, min), Remove(q2, min);
  }

  /** One run of the inner loop, and the category it stands for. */
  method OneCategory(s1: seq<int>, s2: seq<int>, l1: seq<int>, l2: seq<int>)
    returns (r1: seq<int>, r2: seq<int>, n1: nat, n2: nat, ended: bool, ghost iv: Interval)
    requires s1 != [] && s2 != [] && l1 != [] && l2 != [] && Sorted(s1) && Sorted(s2)
    requires Rest(s1, l1, Front(l1, l2)) && Rest(s2, l2, Front(l1, l2))
    ensures iv.lo == Front(l1, l2) && Cut(s1, s2, iv, n1, n2, ended)
    ensures !ended ==> r1 != [] && r2 != [] && iv.hi == Front(r1, r2) && Rest(s1, r1, iv.hi) && Rest(s2, r2, iv.hi)
    ensures |r1| + |r2| < |l1| + |l2|
  {
    ghost var last, q1, q2;
    r1, r2, n1, n2, ended, last, q1, q2 := NextCategory(s1, s2, l1, l2);
    if ended {
      if r1 == [] && r2 != [] { n2 := n2 + |r2|; }
      if r1 != [] && r2 == [] { n1 := n1 + |r1|; }
      iv := CloseLast(s1, s2, l1, l2, q1, q2, r1, r2, last);
    } else {
      iv := Close(s1, s2, l1, l2, q1, q2, r1, r2, last);
    }
  }

  /** Both loops, on the sorted samples. */
  method CutSorted(s1: seq<int>, s2: seq<int>) returns (c1: seq<nat>, c2: seq<nat>, ghost ivs: seq<Interval>)
    requires s1 != [] && s2 != [] && Sorted(s1) && Sorted(s2)
    ensures Categories(s1, s2, c1, c2, ivs)
  {
    var l1, l2 := s1, s2;
    ghost var lo := Front(l1, l2);
    Start(s1, lo);
    Start(s2, lo);
    c1, c2, ivs := [], [], [];
    var ended := false;
    while !ended
      invariant !ended ==> l1 != [] && l2 != [] && Rest(s1, l1, Front(l1, l2)) && Rest(s2, l2, Front(l1, l2))
      invariant !ended && ivs != [] ==> ivs[|ivs| - 1].hi == Front(l1, l2)
      invariant Cuts(s1, s2, c1, c2, ivs, ended)
      invariant if ivs == [] then !ended && Front(l1, l2) == lo else ivs[0].lo == lo
      decreases |l1| + |l2|, !ended
    {
      var n1: nat, n2: nat;
      ghost var iv;
      l1, l2, n1, n2, ended, iv := OneCategory(s1, s2, l1, l2);
      CutsGrow(s1, s2, c1, c2, ivs, n1, n2, iv, ended);
      c1, c2, ivs := c1 + [n1], c2 + [n2], ivs + [iv];
    }
  }

  lemma CutsGrow(s1: seq<int>, s2: seq<int>, c1: seq<nat>, c2: seq<nat>, ivs: seq<Interval>,
                 n1: nat, n2: nat, iv: Interval, ended: bool)
    requires Cuts(s1, s2, c1, c2, ivs, false) && Cut(s1, s2, iv, n1, n2, ended)
    requires ivs != [] ==> ivs[|ivs| - 1].hi == iv.lo
    ensures Cuts(s1, s2, c1 + [n1], c2 + [n2], ivs + [iv], ended)
  {
    var c1', c2', ivs' := c1 + [n1], c2 + [n2], ivs + [iv];
    forall i | 0 <= i < |ivs'|
      ensures Cut(s1, s2, ivs'[i], c1'[i], c2'[i], ended && i == |ivs'| - 1)
    {
      if i < |ivs| { assert Cut(s1, s2, ivs[i], c1[i], c2[i], false); }
    }
  }

  /** The lengths of the lists as counts of values. */
  lemma FilledCounts(s1: seq<int>, s2: seq<int>, l1: seq<int>, l2: seq<int>, q1: seq<int>, q2: seq<int>,
                     r1: seq<int>, r2: seq<int>, last: int)
    requires Filled(s1, s2, l1, l2, q1, q2, r1, r2, last)
    ensures Less(s1, Front(l1, l2)) == |s1| - |l1| && Less(s2, Front(l1, l2)) == |s2| - |l2|
    ensures Less(s1, last) == |s1| - |q1| && Less(s2, last) == |s2| - |q2|
    ensures Less(s1, last + 1) == |s1| - |r1| && Less(s2, last + 1) == |s2| - |r2|
  {
    RestBelow(s1, l1, Front(l1, l2));
    RestBelow(s2, l2, Front(l1, l2));
    RestBelow(s1, q1, last);
    RestBelow(s2, q2, last);
    RestBelow(s1, r1, last + 1);
    RestBelow(s2, r2, last + 1);
  }

  /** The category the inner loop has just filled. */
  lemma Close(s1: seq<int>, s2: seq<int>, l1: seq<int>, l2: seq<int>, q1: seq<int>, q2: seq<int>,
              r1: seq<int>, r2: seq<int>, last: int) returns (iv: Interval)
    requires Filled(s1, s2, l1, l2, q1, q2, r1, r2, last) && r1 != [] && r2 != [] && s1 != [] && s2 != []
    requires Sorted(s1) && Sorted(s2)
    requires Short(s1, s2, Front(l1, l2), last) && Enough(|s1|, |s2|, |l1| - |r1| + |l2| - |r2|)
    ensures iv.lo == Front(l1, l2) && iv.hi == Front(r1, r2)
    ensures Cut(s1, s2, iv, |l1| - |r1|, |l2| - |r2|, false)
    ensures Rest(s1, r1, iv.hi) && Rest(s2, r2, iv.hi)
  {
    iv := Interval(Front(l1, l2), last, Front(r1, r2));
    FilledCounts(s1, s2, l1, l2, q1, q2, r1, r2, last);
    NextFront(s1, s2, r1, r2, last);
    RestBelow(s1, r1, iv.hi);
    RestBelow(s2, r2, iv.hi);
  }

  /** The last category, which takes what is left of the longer sample. */
  lemma CloseLast(s1: seq<int>, s2: seq<int>, l1: seq<int>, l2: seq<int>, q1: seq<int>, q2: seq<int>,
                  r1: seq<int>, r2: seq<int>, last: int) returns (iv: Interval)
    requires Filled(s1, s2, l1, l2, q1, q2, r1, r2, last) && (r1 == [] || r2 == []) && s1 != [] && s2 != []
    requires Short(s1, s2, Front(l1, l2), last)
    ensures iv.lo == Front(l1, l2) && Cut(s1, s2, iv, |l1|, |l2|, true)
  {
    FilledCounts(s1, s2, l1, l2, q1, q2, r1, r2, last);
    var hi1 := AboveAll(s1, last + 1);
    var hi2 := AboveAll(s2, hi1);
    AllLess(s1, hi1, hi2);
    iv := Interval(Front(l1, l2), last, hi2);
  }

  lemma {:induction false} AboveAll(s: seq<int>, least: int) returns (v: int)
    ensures v >= least && Less(s, v) == |s|
  {
    if s == [] {
      v := least;
    } else {
      var w := AboveAll(s[..|s| - 1], least);
      v := if w > s[|s| - 1] then w else s[|s| - 1] + 1;
      AllLess(s[..|s| - 1], w, v);
    }
  }

  lemma {:induction false} AllLess(s: seq<int>, v: int, w: int)
    requires v <= w && Less(s, v) == |s|
    ensures Less(s, w) == |s|
  {
    if s != [] {
      LessMost(s[..|s| - 1], v);
      AllLess(s[..|s| - 1], v, w);
    }
  }

  lemma {:induction false} LessMost(s: seq<int>, v: int)
    ensures Less(s, v) <= |s|
  {
    if s != [] { LessMost(s[..|s| - 1], v); }
  }

  ghost predicate SameCounts(a: seq<int>, s: seq<int>) {
    |a| == |s| && forall v {:trigger Less(s, v)} :: Less(a, v) == Less(s, v)
  }

  lemma SortSame(s: seq<int>) returns (a: seq<int>)
    ensures a == Sort(s) && SameCounts(a, s)
  {
    a := Sort(s);
    forall v
      ensures Less(a, v) == Less(s, v)
    {
      SortCounts(s, v);
    }
  }

  lemma CutSame(a: seq<int>, b: seq<int>, s1: seq<int>, s2: seq<int>, iv: Interval, n1: nat, n2: nat, final: bool)
    requires SameCounts(a, s1) && SameCounts(b, s2) && Cut(a, b, iv, n1, n2, final)
    ensures Cut(s1, s2, iv, n1, n2, final)
  {
    forall v | iv.lo <= v <= iv.last
      ensures !Enough(|s1|, |s2|, Within(s1, s2, iv.lo, v))
    {
      assert Within(s1, s2, iv.lo, v) == Within(a, b, iv.lo, v);
    }
  }

  /** Whether a category counts the sorted samples or the samples makes no difference. */
  lemma CutsSame(a: seq<int>, b: seq<int>, s1: seq<int>, s2: seq<int>, c1: seq<nat>, c2: seq<nat>, ivs: seq<Interval>)
    requires SameCounts(a, s1) && SameCounts(b, s2) && Categories(a, b, c1, c2, ivs)
    ensures Categories(s1, s2, c1, c2, ivs)
  {
    forall i | 0 <= i < |ivs|
      ensures Cut(s1, s2, ivs[i], c1[i], c2[i], true && i == |ivs| - 1)
    {
      CutSame(a, b, s1, s2, ivs[i], c1[i], c2[i], i == |ivs| - 1);
    }
  }

  lemma {:induction false} SumCounts(s1: seq<int>, s2: seq<int>, c1: seq<nat>, c2: seq<nat>, ivs: seq<Interval>,
                                     ended: bool)
    requires ivs != [] && Cuts(s1, s2, c1, c2, ivs, ended)
    ensures Sum(c1) == Less(s1, ivs[|ivs| - 1].hi) - Less(s1, ivs[0].lo)
    ensures Sum(c2) == Less(s2, ivs[|ivs| - 1].hi) - Less(s2, ivs[0].lo)
  {
    var m := |ivs| - 1;
    assert Cut(s1, s2, ivs[m], c1[m], c2[m], ended);
    if m == 0 {
      assert c1[..0] == [] && c2[..0] == [];
    } else {
      CutsPrefix(s1, s2, c1, c2, ivs, ended);
      SumCounts(s1, s2, c1[..m], c2[..m], ivs[..m], false);
    }
  }

  lemma CutsPrefix(s1: seq<int>, s2: seq<int>, c1: seq<nat>, c2: seq<nat>, ivs: seq<Interval>, ended: bool)
    requires ivs != [] && Cuts(s1, s2, c1, c2, ivs, ended)
    ensures var m := |ivs| - 1;
            Cuts(s1, s2, c1[..m], c2[..m], ivs[..m], false)
  {
    var m := |ivs| - 1;
    forall i | 0 <= i < m
      ensures Cut(s1, s2, ivs[..m][i], c1[..m][i], c2[..m][i], false)
    {
      assert Cut(s1, s2, ivs[i], c1[i], c2[i], ended && i == m);
    }
  }

  /**
   * The vectors of category sizes: one entry per interval, the intervals consecutive
   * and disjoint, every observation in exactly one of them.
   */
  method PcsCategories(sample1: seq<int>, sample2: seq<int>)
    returns (categories1: seq<nat>, categories2: seq<nat>, ghost ivs: seq<Interval>)
    requires sample1 != [] && sample2 != []
    ensures Categories(sample1, sample2, categories1, categories2, ivs)
    ensures Sum(categories1) == |sample1| && Sum(categories2) == |sample2|
  {
    categories1, categories2, ivs := CutSorted(Sort(sample1), Sort(sample2));
    ghost var a := SortSame(sample1);
    ghost var b := SortSame(sample2);
    CutsSame(a, b, sample1, sample2, categories1, categories2, ivs);
    SumCounts(sample1, sample2, categories1, categories2, ivs, true);
  }

  // ---------------------------------------------------------------- no other categories

  /** Two categories that start at the same count; the first is not closed before the second. */
  lemma {:induction false} LastNotBefore(s1: seq<int>, s2: seq<int>, iv: Interval, n1: nat, n2: nat, f: bool,
                                         jv: Interval, m1: nat,
                      m2: nat, g: bool)
    requires Cut(s1, s2, iv, n1, n2, f) && Cut(s1, s2, jv, m1, m2, g)
    requires Less(s1, iv.lo) == Less(s1, jv.lo) && Less(s2, iv.lo) == Less(s2, jv.lo)
    ensures iv.last >= jv.last
  {
    var v := iv.last + 1;
    assert Within(s1, s2, jv.lo, v) == Within(s1, s2, iv.lo, v);
    if v <= jv.last {
      LessGrows(s1, v, jv.last);
      LessGrows(s2, v, jv.last);
      if v < jv.lo {
        LessGrows(s1, v, jv.lo);
        LessGrows(s2, v, jv.lo);
      }
    }
  }

  /** The next category starts with values left in both samples. */
  lemma {:induction false} NotUsedUp(s1: seq<int>, s2: seq<int>, iv: Interval, n1: nat, n2: nat, f: bool)
    requires Cut(s1, s2, iv, n1, n2, f)
    ensures Less(s1, iv.lo) < |s1| && Less(s2, iv.lo) < |s2|
  {
    LessGrows(s1, iv.lo, iv.last);
    LessGrows(s2, iv.lo, iv.last);
  }

  /** Categories that start at the same count are the same. */
  lemma {:induction false} CutUnique(s1: seq<int>, s2: seq<int>, iv: Interval, n1: nat, n2: nat, f: bool,
                                     jv: Interval, m1: nat, m2: nat,
                  g: bool)
    requires Cut(s1, s2, iv, n1, n2, f) && Cut(s1, s2, jv, m1, m2, g)
    requires Less(s1, iv.lo) == Less(s1, jv.lo) && Less(s2, iv.lo) == Less(s2, jv.lo)
    requires !f ==> Less(s1, iv.hi) < |s1| && Less(s2, iv.hi) < |s2|
    requires !g ==> Less(s1, jv.hi) < |s1| && Less(s2, jv.hi) < |s2|
    ensures f == g && n1 == m1 && n2 == m2
    ensures Less(s1, iv.hi) == Less(s1, jv.hi) && Less(s2, iv.hi) == Less(s2, jv.hi)
  {
    LastNotBefore(s1, s2, iv, n1, n2, f, jv, m1, m2, g);
    LastNotBefore(s1, s2, jv, m1, m2, g, iv, n1, n2, f);
  }

  lemma {:induction false} CutsAgree(s1: seq<int>, s2: seq<int>, c1: seq<nat>, c2: seq<nat>, ivs: seq<Interval>,
                                     d1: seq<nat>, d2: seq<nat>, jvs: seq<Interval>, m: nat)
    requires Categories(s1, s2, c1, c2, ivs) && Categories(s1, s2, d1, d2, jvs)
    requires m < |ivs| && m < |jvs|
    ensures c1[m] == d1[m] && c2[m] == d2[m] && (m == |ivs| - 1 <==> m == |jvs| - 1)
    ensures Less(s1, ivs[m].hi) == Less(s1, jvs[m].hi) && Less(s2, ivs[m].hi) == Less(s2, jvs[m].hi)
  {
    if m > 0 { CutsAgree(s1, s2, c1, c2, ivs, d1, d2, jvs, m - 1); }
    if m < |ivs| - 1 { NotUsedUp(s1, s2, ivs[m + 1], c1[m + 1], c2[m + 1], m + 1 == |ivs| - 1); }
    if m < |jvs| - 1 { NotUsedUp(s1, s2, jvs[m + 1], d1[m + 1], d2[m + 1], m + 1 == |jvs| - 1); }
    CutUnique(s1, s2, ivs[m], c1[m], c2[m], m == |ivs| - 1, jvs[m], d1[m], d2[m], m == |jvs| - 1);
  }

  /** The samples determine their categories. */
  lemma CategoriesUnique(s1: seq<int>, s2: seq<int>, c1: seq<nat>, c2: seq<nat>, ivs: seq<Interval>,
                         d1: seq<nat>, d2: seq<nat>, jvs: seq<Interval>)
    requires Categories(s1, s2, c1, c2, ivs) && Categories(s1, s2, d1, d2, jvs)
    ensures c1 == d1 && c2 == d2
  {
    CutsAgree(s1, s2, c1, c2, ivs, d1, d2, jvs, if |ivs| < |jvs| then |ivs| - 1 else |jvs| - 1);
    forall m | 0 <= m < |ivs|
      ensures c1[m] == d1[m] && c2[m] == d2[m]
    {
      CutsAgree(s1, s2, c1, c2, ivs, d1, d2, jvs, m);
    }
  }

  // ---------------------------------------------------------------- the statistic

  /** The share of a category with a and b observations: (a l2 - b l1)^2 / (l1 l2 (a + b)). */
  function Term(l1: real, l2: real, a: real, b: real): real
    requires l1 > 0.0 && l2 > 0.0 && a + b > 0.0
  {
    var w := a * l2 - b * l1;
    w * w / (l1 * l2 * (a + b))
  }

  /** The two summands of the source, for one category, are the share. */
  lemma TermIs(l1: real, l2: real, a: real, b: real, e: real, d: real)
    requires l1 > 0.0 && l2 > 0.0 && a + b > 0.0
    requires e == (a + b) / (l1 + l2) && d == a - l1 * e
    ensures e > 0.0 && l1 * e > 0.0 && l2 * e > 0.0 && l1 * e + l2 * e == a + b
    ensures b - l2 * e == -d
    ensures d * d / (l1 * e) + d * d / (l2 * e) == Term(l1, l2, a, b)
  {
    var n, s, w := l1 + l2, a + b, a * l2 - b * l1;
    assert e * n == s;
    assert e > 0.0;
    TimesPositive(l1, e);
    TimesPositive(l2, e);
    assert l1 * e + l2 * e == n * e;
    assert d * n == w by {
      assert d * n == a * n - l1 * (e * n);
    }
    var x := d * d / (l1 * e);
    var y := d * d / (l2 * e);
    TermParts(l1, l2, e, d, x, y);
    var z := x + y;
    // z * l1 * l2 * e == d * d * n, and so z * (l1 * l2 * s) == w * w
    assert z * (l1 * l2 * e) == d * d * n;
    assert z * (l1 * l2 * s) == w * w by {
      assert l1 * l2 * s == (l1 * l2 * e) * n;
      assert z * (l1 * l2 * s) == (d * d * n) * n;
      assert (d * d * n) * n == (d * n) * (d * n);
    }
    TimesPositive(l1, l2);
    TimesPositive(l1 * l2, s);
    QuotientIs(w * w, l1 * l2 * s, z);
  }

  lemma TermParts(l1: real, l2: real, e: real, d: real, x: real, y: real)
    requires l1 * e > 0.0 && l2 * e > 0.0 && x == d * d / (l1 * e) && y == d * d / (l2 * e)
    ensures (x + y) * (l1 * l2 * e) == d * d * (l1 + l2)
  {
  }

  /** A share is never negative, and zero exactly for a category in proportion. */
  lemma TermSign(l1: real, l2: real, a: real, b: real)
    requires l1 > 0.0 && l2 > 0.0 && a + b > 0.0
    ensures Term(l1, l2, a, b) >= 0.0
    ensures Term(l1, l2, a, b) == 0.0 <==> a * l2 == b * l1
  {
    var w, t, p := a * l2 - b * l1, Term(l1, l2, a, b), l1 * l2 * (a + b);
    TimesPositive(l1, l2);
    TimesPositive(l1 * l2, a + b);
    assert t * p == w * w;
    SquareSign(w, t * p);
    SignOfFactor(t, p);
    if t == 0.0 { assert t * p == 0.0; }
  }

  /** A share is at most a l2 / l1 + b l1 / l2. */
  lemma TermMost(l1: real, l2: real, a: real, b: real, u: real, v: real)
    requires l1 > 0.0 && l2 > 0.0 && a >= 0.0 && b >= 0.0 && a + b > 0.0 && u == l2 / l1 && v == l1 / l2
    ensures Term(l1, l2, a, b) <= a * u + b * v
  {
    var x, y, s, t := a * l2, b * l1, a + b, Term(l1, l2, a, b);
    var p := l1 * l2;
    TimesPositive(l1, l2);
    TimesPositive(p, s);
    assert t * (p * s) == (x - y) * (x - y);
    var most := a * u + b * v;
    MostTimes(l1, l2, a, b, u, v);
    var rest := 2.0 * (x * y) + (a * b) * (l1 * l1 + l2 * l2);
    assert most * (p * s) - (x - y) * (x - y) == rest by {
      assert most * (p * s) == (most * p) * s;
      assert (a * (l2 * l2) + b * (l1 * l1)) * (a + b) == x * x + y * y + (a * b) * (l1 * l1 + l2 * l2);
    }
    TimesNonNegative(a, l2);
    TimesNonNegative(b, l1);
    TimesNonNegative(x, y);
    TimesNonNegative(a, b);
    TimesNonNegative(a * b, l1 * l1 + l2 * l2);
    assert (most - t) * (p * s) == rest;
    SignOfFactor(most - t, p * s);
  }

  lemma MostTimes(l1: real, l2: real, a: real, b: real, u: real, v: real)
    requires l1 > 0.0 && l2 > 0.0 && u == l2 / l1 && v == l1 / l2
    ensures (a * u + b * v) * (l1 * l2) == a * (l2 * l2) + b * (l1 * l1)
  {
  }

  /** Every category has an observation. */
  ghost predicate NonEmpty(c1: seq<nat>, c2: seq<nat>) {
    |c1| == |c2| && forall i :: 0 <= i < |c1| ==> c1[i] + c2[i] > 0
  }

  /** a and b observations are in the proportion of the sample sizes. */
  predicate Proportional(lg1: nat, lg2: nat, a: nat, b: nat) {
    a as real * lg2 as real == b as real * lg1 as real
  }

  ghost predicate InProportion(lg1: nat, lg2: nat, c1: seq<nat>, c2: seq<nat>)
    requires |c1| == |c2|
  {
    forall i :: 0 <= i < |c1| ==> Proportional(lg1, lg2, c1[i], c2[i])
  }

  /** The sum of the shares: the chi-square statistic. */
  ghost function Statistic(lg1: nat, lg2: nat, c1: seq<nat>, c2: seq<nat>): real
    requires lg1 > 0 && lg2 > 0 && NonEmpty(c1, c2)
  {
    if c1 == [] then 0.0
    else
      var m := |c1| - 1;
      Statistic(lg1, lg2, c1[..m], c2[..m]) + Term(lg1 as real, lg2 as real, c1[m] as real, c2[m] as real)
  }

  lemma {:induction false} StatisticMost(lg1: nat, lg2: nat, c1: seq<nat>, c2: seq<nat>, u: real, v: real)
    requires lg1 > 0 && lg2 > 0 && NonEmpty(c1, c2) && u == lg2 as real / lg1 as real && v == lg1 as real / lg2 as real
    ensures Statistic(lg1, lg2, c1, c2) <= Weighted(Sum(c1) as real, Sum(c2) as real, u, v)
  {
    if c1 != [] {
      var m := |c1| - 1;
      var a, b := c1[m] as real, c2[m] as real;
      var before1, before2 := Sum(c1[..m]) as real, Sum(c2[..m]) as real;
      StatisticMost(lg1, lg2, c1[..m], c2[..m], u, v);
      TermMost(lg1 as real, lg2 as real, a, b, u, v);
      assert Sum(c1) as real == before1 + a && Sum(c2) as real == before2 + b;
      WeightedSplits(before1, a, before2, b, u, v);
    }
  }

  function Weighted(x: real, y: real, u: real, v: real): real { x * u + y * v }

  lemma WeightedSplits(x: real, a: real, y: real, b: real, u: real, v: real)
    ensures Weighted(x + a, y + b, u, v) == Weighted(x, y, u, v) + a * u + b * v
  {
  }

  lemma {:induction false} StatisticSign(lg1: nat, lg2: nat, c1: seq<nat>, c2: seq<nat>)
    requires lg1 > 0 && lg2 > 0 && NonEmpty(c1, c2)
    ensures 0.0 <= Statistic(lg1, lg2, c1, c2)
    ensures Statistic(lg1, lg2, c1, c2) == 0.0 <==> InProportion(lg1, lg2, c1, c2)
  {
    if c1 != [] {
      var m := |c1| - 1;
      StatisticSign(lg1, lg2, c1[..m], c2[..m]);
      var share := ShareSign(lg1, lg2, c1[m], c2[m]);
      assert Statistic(lg1, lg2, c1, c2) == Statistic(lg1, lg2, c1[..m], c2[..m]) + share;
      ProportionSplits(lg1, lg2, c1, c2);
    }
  }

  lemma ShareSign(lg1: nat, lg2: nat, a: nat, b: nat) returns (share: real)
    requires lg1 > 0 && lg2 > 0 && a + b > 0
    ensures share == Term(lg1 as real, lg2 as real, a as real, b as real)
    ensures share >= 0.0 && (share == 0.0 <==> Proportional(lg1, lg2, a, b))
  {
    share := Term(lg1 as real, lg2 as real, a as real, b as real);
    TermSign(lg1 as real, lg2 as real, a as real, b as real);
  }

  lemma ProportionSplits(lg1: nat, lg2: nat, c1: seq<nat>, c2: seq<nat>)
    requires |c1| == |c2| && c1 != []
    ensures var m := |c1| - 1;
            InProportion(lg1, lg2, c1, c2)
            <==> InProportion(lg1, lg2, c1[..m], c2[..m]) && Proportional(lg1, lg2, c1[m], c2[m])
  {
  }

  /** The statistic is between 0 and n, and 0 exactly for samples in the same proportion in every category. */
  lemma {:induction false} StatisticRange(lg1: nat, lg2: nat, c1: seq<nat>, c2: seq<nat>)
    requires lg1 > 0 && lg2 > 0 && NonEmpty(c1, c2) && Sum(c1) == lg1 && Sum(c2) == lg2
    ensures 0.0 <= Statistic(lg1, lg2, c1, c2) <= (lg1 + lg2) as real
    ensures Statistic(lg1, lg2, c1, c2) == 0.0 <==> InProportion(lg1, lg2, c1, c2)
  {
    StatisticSign(lg1, lg2, c1, c2);
    StatisticTop(lg1, lg2, c1, c2);
  }

  lemma {:induction false} StatisticTop(lg1: nat, lg2: nat, c1: seq<nat>, c2: seq<nat>)
    requires lg1 > 0 && lg2 > 0 && NonEmpty(c1, c2) && Sum(c1) == lg1 && Sum(c2) == lg2
    ensures Statistic(lg1, lg2, c1, c2) <= (lg1 + lg2) as real
  {
    var u, v := lg2 as real / lg1 as real, lg1 as real / lg2 as real;
    StatisticMost(lg1, lg2, c1, c2, u, v);
    MostAt(Statistic(lg1, lg2, c1, c2), Sum(c1) as real, Sum(c2) as real, u, v);
  }

  lemma MostAt(statistic: real, l1: real, l2: real, u: real, v: real)
    requires l1 > 0.0 && l2 > 0.0 && u == l2 / l1 && v == l1 / l2 && statistic <= Weighted(l1, l2, u, v)
    ensures statistic <= l1 + l2
  {
  }

  /** Division; a zero divisor, which only a wrapped product can give, is not modelled. */
  function Quotient(x: real, y: real): real {
    if y == 0.0 then 0.0 else x / y
  }

  /** The square of a deviation over the expectation. */
  function Summand(d: real, e: real): real {
    Quotient(d * d, e)
  }

  /** The unsigned products for a category of k observations do not wrap. */
  predicate ProductsFit(lg1: nat, lg2: nat, k: nat) { lg1 * k < U32 && lg2 * k < U32 }

  ghost predicate AllFit(lg1: nat, lg2: nat, c1: seq<nat>, c2: seq<nat>) {
    |c1| == |c2| && forall i :: 0 <= i < |c1| ==> ProductsFit(lg1, lg2, c1[i] + c2[i])
  }

  /** Neither expectation is zero, by which the source would divide: no product is a multiple of 2^32. */
  predicate Dividing(lg1: nat, lg2: nat, k: nat) { lg1 * k % U32 > 0 && lg2 * k % U32 > 0 }

  ghost predicate AllDividing(lg1: nat, lg2: nat, c1: seq<nat>, c2: seq<nat>) {
    |c1| == |c2| && forall i :: 0 <= i < |c1| ==> Dividing(lg1, lg2, c1[i] + c2[i])
  }

  /**
   * What the loop adds for one category. The expectations sum to its size exactly if no
   * product wraps, and a category in proportion adds nothing exactly if none does.
   */
  method Share(lg1: nat, lg2: nat, n: nat, a: nat, b: nat) returns (e1: real, e2: real, d1: real, d2: real, share: real)
    requires lg1 > 0 && lg2 > 0 && n == lg1 + lg2
    ensures e1 + e2 == (a + b) as real <==> ProductsFit(lg1, lg2, a + b)
    ensures d1 == -d2 <==> ProductsFit(lg1, lg2, a + b)
    ensures ProductsFit(lg1, lg2, a + b) && 0 < a + b ==>
            && e1 > 0.0 && e2 > 0.0
            && share == Term(lg1 as real, lg2 as real, a as real, b as real)
    ensures share >= 0.0
    ensures Proportional(lg1, lg2, a, b) && Dividing(lg1, lg2, a + b) ==>
              (share == 0.0 <==> ProductsFit(lg1, lg2, a + b))
  {
    var k := a + b;
    e1, e2 := Expected(lg1, k, n), Expected(lg2, k, n);
    d1, d2 := a as real - e1, b as real - e2;
    share := Summand(d1, e1) + Summand(d2, e2);
    ExpectedSumIff(lg1, lg2, k, n, e1, e2);
    SummandSign(d1, e1);
    SummandSign(d2, e2);
    if ProductsFit(lg1, lg2, k) && 0 < k { FittingShare(lg1, lg2, a, b, e1, e2, d1, d2); }
    if Proportional(lg1, lg2, a, b) && Dividing(lg1, lg2, k) {
      DeviationsIff(lg1, lg2, n, a, b, e1, d1);
      DeviationsIff(lg2, lg1, n, b, a, e2, d2);
    }
  }

  lemma FittingShare(lg1: nat, lg2: nat, a: nat, b: nat, e1: real, e2: real, d1: real, d2: real)
    requires lg1 > 0 && lg2 > 0 && 0 < a + b && ProductsFit(lg1, lg2, a + b)
    requires e1 == Expected(lg1, a + b, lg1 + lg2) && e2 == Expected(lg2, a + b, lg1 + lg2)
    requires d1 == a as real - e1 && d2 == b as real - e2
    ensures e1 > 0.0 && e2 > 0.0
    ensures Summand(d1, e1) + Summand(d2, e2) == Term(lg1 as real, lg2 as real, a as real, b as real)
  {
    var e := ExpectedShares(lg1, lg2, a, b, e1, e2);
    SummandsAre(lg1 as real, lg2 as real, a as real, b as real, e, e1, e2, d1, d2);
  }

  /** Neither expectation can grow by wrapping. */
  lemma ExpectedSumIff(lg1: nat, lg2: nat, k: nat, n: nat, e1: real, e2: real)
    requires lg1 > 0 && lg2 > 0 && n == lg1 + lg2 && e1 == Expected(lg1, k, n) && e2 == Expected(lg2, k, n)
    ensures e1 + e2 == k as real <==> ProductsFit(lg1, lg2, k)
  {
    var w := Wrapped(lg1 * k) + Wrapped(lg2 * k);
    assert w == 0 <==> ProductsFit(lg1, lg2, k);
    ProductsAdd(lg1, lg2, k, n);
    SumsTo(e1, e2, (lg1 * k % U32) as real, (lg2 * k % U32) as real, n as real, k as real, w as real);
  }

  lemma ProductsAdd(x: nat, y: nat, k: nat, n: nat)
    requires n == x + y
    ensures (x * k) as real + (y * k) as real == k as real * n as real
  {
  }

  lemma SumsTo(e1: real, e2: real, product1: real, product2: real, n: real, k: real, w: real)
    requires n > 0.0 && e1 == product1 / n && e2 == product2 / n && product1 + product2 == k * n - w
    ensures e1 + e2 == k <==> w == 0.0
  {
    assert (e1 + e2) * n == k * n - w;
    if w == 0.0 { Cancels(n, e1 + e2, k); }
  }

  lemma SummandSign(d: real, e: real)
    requires e >= 0.0
    ensures Summand(d, e) >= 0.0 && (e > 0.0 ==> (Summand(d, e) == 0.0 <==> d == 0.0))
  {
    SquareSign(d, d * d);
    if e > 0.0 { QuotientSign(d * d, e); }
  }

  /** For a category in proportion the deviation is what the expectation lost by wrapping. */
  lemma DeviationsIff(lg1: nat, lg2: nat, n: nat, a: nat, b: nat, e: real, d: real)
    requires lg1 > 0 && lg2 > 0 && n == lg1 + lg2 && Proportional(lg1, lg2, a, b)
    requires e == Expected(lg1, a + b, n) && d == a as real - e && lg1 * (a + b) % U32 > 0
    ensures e > 0.0 && (d == 0.0 <==> lg1 * (a + b) < U32)
  {
    var product := lg1 * (a + b);
    ProportionIs(lg1 as real, lg2 as real, a as real, b as real, n as real);
    QuotientSign((product % U32) as real, n as real);
    WrappedPart(a as real, product, n as real, e);
  }

  lemma ProportionIs(l1: real, l2: real, a: real, b: real, n: real)
    requires n == l1 + l2 && a * l2 == b * l1
    ensures a * n == l1 * (a + b)
  {
  }

  lemma WrappedPart(a: real, product: nat, n: real, e: real)
    requires n > 0.0 && a * n == product as real && e == (product % U32) as real / n
    ensures a - e == 0.0 <==> product < U32
  {
    assert e * n == (product % U32) as real;
    assert (a - e) * n == Wrapped(product) as real;
    if product < U32 { Cancels(n, a, e); }
  }

  /**
   * In general a wrapped product may leave a summand right by chance, as for 15360 and 17408
   * of 204800 and 57344 observations: 9216 is expected instead of 25600, and both are as far off.
   */
  lemma RightByChance(lg1: nat, lg2: nat, a: nat, b: nat)
    requires lg1 == 204800 && lg2 == 57344 && a == 15360 && b == 17408
    ensures !ProductsFit(lg1, lg2, a + b) && Expected(lg1, a + b, lg1 + lg2) == 9216.0
    ensures var e1, e2 := Expected(lg1, a + b, lg1 + lg2), Expected(lg2, a + b, lg1 + lg2);
            var d1, d2 := a as real - e1, b as real - e2;
            Summand(d1, e1) + Summand(d2, e2) == Term(lg1 as real, lg2 as real, a as real, b as real)
  {
  }

  lemma SquareOfNegation(x: real, y: real)
    requires y == -x
    ensures y * y == x * x
  {
  }

  /** The expectations are the category's share of all observations, for either sample. */
  lemma ExpectedShares(lg1: nat, lg2: nat, a: nat, b: nat, e1: real, e2: real) returns (e: real)
    requires lg1 > 0 && lg2 > 0 && 0 < a + b && ProductsFit(lg1, lg2, a + b)
    requires e1 == Expected(lg1, a + b, lg1 + lg2) && e2 == Expected(lg2, a + b, lg1 + lg2)
    ensures e == (a as real + b as real) / (lg1 as real + lg2 as real) && e1 == lg1 as real * e && e2 == lg2 as real * e
  {
    e := (a + b) as real / (lg1 + lg2) as real;
    ExpectedFits(lg1, a + b, lg1 + lg2, e);
    ExpectedFits(lg2, a + b, lg1 + lg2, e);
  }

  lemma SharesAre(l1: real, l2: real, a: real, b: real, e: real, e1: real, e2: real, d: real)
    requires l1 > 0.0 && l2 > 0.0 && a + b > 0.0 && e == (a + b) / (l1 + l2)
    requires e1 == l1 * e && e2 == l2 * e && d == a - e1
    ensures e1 > 0.0 && e2 > 0.0 && e1 + e2 == a + b && b - e2 == -d
    ensures d * d / e1 + d * d / e2 == Term(l1, l2, a, b)
  {
    TermIs(l1, l2, a, b, e, d);
  }

  lemma SummandIs(d: real, e: real, square: real)
    requires e > 0.0 && square == d * d
    ensures Summand(d, e) == square / e
  {
  }

  lemma SummandsAre(l1: real, l2: real, a: real, b: real, e: real, e1: real, e2: real, d1: real, d2: real)
    requires l1 > 0.0 && l2 > 0.0 && a + b > 0.0 && e == (a + b) / (l1 + l2)
    requires e1 == l1 * e && e2 == l2 * e && d1 == a - e1 && d2 == b - e2
    ensures e1 > 0.0 && e2 > 0.0 && Summand(d1, e1) + Summand(d2, e2) == Term(l1, l2, a, b)
  {
    SharesAre(l1, l2, a, b, e, e1, e2, d1);
    SquareOfNegation(d1, d2);
    SummandIs(d1, e1, d1 * d1);
    SummandIs(d2, e2, d1 * d1);
  }

  lemma ExpectedFits(lg: nat, k: nat, n: nat, e: real)
    requires 0 < n && lg * k < U32 && e == k as real / n as real
    ensures Expected(lg, k, n) == lg as real * e
  {
    ExpectedIs(lg as real, k as real, n as real, e);
  }

  lemma ExpectedIs(lg: real, k: real, n: real, e: real)
    requires n > 0.0 && e == k / n
    ensures lg * k / n == lg * e
  {
  }

  lemma {:induction false} SumAt(c: seq<nat>, i: nat)
    requires i < |c|
    ensures c[i] <= Sum(c)
  {
    if i < |c| - 1 { SumAt(c[..|c| - 1], i); }
  }

  /** They do not for samples of 65535 observations in all. */
  lemma {:induction false} SizesFit(lg1: nat, lg2: nat, c1: seq<nat>, c2: seq<nat>)
    requires |c1| == |c2| && Sum(c1) == lg1 && Sum(c2) == lg2 && lg1 + lg2 < U16
    ensures AllFit(lg1, lg2, c1, c2)
  {
    forall i | 0 <= i < |c1|
      ensures ProductsFit(lg1, lg2, c1[i] + c2[i])
    {
      SumAt(c1, i);
      SumAt(c2, i);
      ProductFits(lg1, c1[i] + c2[i], 65535, 65535);
      ProductFits(lg2, c1[i] + c2[i], 65535, 65535);
    }
  }

  lemma FitsMore(lg1: nat, lg2: nat, c1: seq<nat>, c2: seq<nat>, i: nat)
    requires |c1| == |c2| && i < |c1|
    ensures AllFit(lg1, lg2, c1[..i + 1], c2[..i + 1])
            <==> AllFit(lg1, lg2, c1[..i], c2[..i]) && ProductsFit(lg1, lg2, c1[i] + c2[i])
  {
    var d1, d2 := c1[..i + 1], c2[..i + 1];
    assert d1[i] == c1[i] && d2[i] == c2[i];
    assert forall j :: 0 <= j < i ==> d1[j] == c1[..i][j] && d2[j] == c2[..i][j];
  }

  /** The loop of pcs_test. */
  method Accumulate(lg1: nat, lg2: nat, c1: seq<nat>, c2: seq<nat>) returns (q: real)
    requires lg1 > 0 && lg2 > 0 && NonEmpty(c1, c2) && Sum(c1) == lg1 && Sum(c2) == lg2
    ensures AllFit(lg1, lg2, c1, c2) ==> q == Statistic(lg1, lg2, c1, c2)
    ensures InProportion(lg1, lg2, c1, c2) && AllDividing(lg1, lg2, c1, c2) ==> (q == 0.0 <==> AllFit(lg1, lg2, c1, c2))
  {
    q := 0.0;
    var i := 0;
    while i < |c1|
      invariant i <= |c1| && NonEmpty(c1[..i], c2[..i])
      invariant AllFit(lg1, lg2, c1, c2) ==> q == Statistic(lg1, lg2, c1[..i], c2[..i])
      invariant q >= 0.0
      invariant InProportion(lg1, lg2, c1, c2) && AllDividing(lg1, lg2, c1, c2) ==>
                  (q == 0.0 <==> AllFit(lg1, lg2, c1[..i], c2[..i]))
    {
      var e1, e2, d1, d2, share := Share(lg1, lg2, lg1 + lg2, c1[i], c2[i]);
      assert c1[..i + 1][..i] == c1[..i] && c2[..i + 1][..i] == c2[..i];
      FitsMore(lg1, lg2, c1, c2, i);
      q := q + share;
      i := i + 1;
    }
    assert c1[..i] == c1 && c2[..i] == c2;
  }

  /** pcs_test up to the distribution function: the statistic and the number of categories. */
  method PcsTest(sample1: seq<int>, sample2: seq<int>)
    returns (q: real, noc: nat, ghost c1: seq<nat>, ghost c2: seq<nat>, ghost ivs: seq<Interval>)
    requires sample1 != [] && sample2 != []
    ensures Categories(sample1, sample2, c1, c2, ivs) && noc == |c1| == |c2|
    ensures NonEmpty(c1, c2) && Sum(c1) == |sample1| && Sum(c2) == |sample2|
    ensures AllFit(|sample1|, |sample2|, c1, c2) ==> q == Statistic(|sample1|, |sample2|, c1, c2)
    ensures noc > 0
    ensures AllFit(|sample1|, |sample2|, c1, c2) ==> 0.0 <= q <= (|sample1| + |sample2|) as real
    ensures AllFit(|sample1|, |sample2|, c1, c2) ==> (q == 0.0 <==> InProportion(|sample1|, |sample2|, c1, c2))
    ensures InProportion(|sample1|, |sample2|, c1, c2) && AllDividing(|sample1|, |sample2|, c1, c2) ==>
              (q == 0.0 <==> AllFit(|sample1|, |sample2|, c1, c2))
  {
    var categories1, categories2;
    categories1, categories2, ivs := PcsCategories(sample1, sample2);
    c1, c2, noc := categories1, categories2, |categories1|;
    CutsNonEmpty(sample1, sample2, c1, c2, ivs);
    q := Accumulate(|sample1|, |sample2|, categories1, categories2);
    StatisticRange(|sample1|, |sample2|, c1, c2);
  }

  lemma CutsNonEmpty(s1: seq<int>, s2: seq<int>, c1: seq<nat>, c2: seq<nat>, ivs: seq<Interval>)
    requires Cuts(s1, s2, c1, c2, ivs, true)
    ensures NonEmpty(c1, c2)
  {
    forall i | 0 <= i < |c1|
      ensures c1[i] + c2[i] > 0
    {
      assert Cut(s1, s2, ivs[i], c1[i], c2[i], true && i == |ivs| - 1);
    }
  }
}
