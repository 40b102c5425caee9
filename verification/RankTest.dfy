/**
 * The Wilcoxon-Mann-Whitney rank sum test. Floating point numbers are modelled
 * as reals; the unsigned intermediate results wrap at 32 bits as in the source.
 */
module RankTest {
  import opened Bytes
  import opened RealArithmetic

  // ---------------------------------------------------------------- what is counted

  /** How many values of the sample are below v. */
  function Less(s: seq<int>, v: int): nat {
    if s == [] then 0 else Less(s[..|s| - 1], v) + if s[|s| - 1] < v then 1 else 0
  }

  /** How many values of the sample equal v. */
  function Equal(s: seq<int>, v: int): nat {
    if s == [] then 0 else Equal(s[..|s| - 1], v) + if s[|s| - 1] == v then 1 else 0
  }

  /** Twice the mean number of values of the sample passed by v. */
  function Passed(s: seq<int>, v: int): nat {
    2 * Less(s, v) + Equal(s, v)
  }

  /** Twice the Mann-Whitney statistic: 2 * #{x < y} + #{x == y} over all pairs of s and t. */
  function Pairs(s: seq<int>, t: seq<int>): nat {
    if t == [] then 0 else Pairs(s, t[..|t| - 1]) + Passed(s, t[|t| - 1])
  }

  /** k times c, added up. */
  function Times(k: nat, c: nat): nat {
    if k == 0 then 0 else Times(k - 1, c) + c
  }

  lemma {:induction false} TimesIs(k: nat, c: nat)
    ensures Times(k, c) == k * c
  {
    if k > 0 {
      TimesIs(k - 1, c);
      assert k * c == (k - 1) * c + c;
    }
  }

  // ---------------------------------------------------------------- sorting

  predicate Sorted(s: seq<int>) {
    forall i, j :: 0 <= i < j < |s| ==> s[i] <= s[j]
  }

  function Insert(s: seq<int>, x: int): (r: seq<int>)
    ensures |r| == |s| + 1
    ensures forall y :: y in r ==> y in s || y == x
    ensures Sorted(s) ==> Sorted(r)
  {
    if s == [] || s[|s| - 1] <= x then s + [x]
    else
      var front := Insert(s[..|s| - 1], x);
      assert Sorted(s) ==> Sorted(s[..|s| - 1]);
      assert Sorted(s) ==> forall i :: 0 <= i < |front| ==> front[i] in front && front[i] <= s[|s| - 1];
      front + [s[|s| - 1]]
  }

  /** std::list::sort. */
  function Sort(s: seq<int>): (r: seq<int>)
    ensures |r| == |s| && Sorted(r)
  {
    if s == [] then [] else Insert(Sort(s[..|s| - 1]), s[|s| - 1])
  }

  lemma {:induction false} InsertCounts(s: seq<int>, x: int, v: int)
    ensures Less(Insert(s, x), v) == Less(s, v) + if x < v then 1 else 0
    ensures Equal(Insert(s, x), v) == Equal(s, v) + if x == v then 1 else 0
  {
    var r := Insert(s, x);
    if s == [] || s[|s| - 1] <= x {
      assert r[..|r| - 1] == s;
    } else {
      InsertCounts(s[..|s| - 1], x, v);
      assert r[..|r| - 1] == Insert(s[..|s| - 1], x);
    }
  }

  /** Counting does not depend on the order of the sample. */
  lemma {:induction false} SortCounts(s: seq<int>, v: int)
    ensures Less(Sort(s), v) == Less(s, v) && Equal(Sort(s), v) == Equal(s, v)
  {
    if s != [] {
      SortCounts(s[..|s| - 1], v);
      InsertCounts(Sort(s[..|s| - 1]), s[|s| - 1], v);
    }
  }

  lemma {:induction false} SortedFirst(s: seq<int>, t: seq<int>)
    ensures Pairs(Sort(s), t) == Pairs(s, t)
  {
    if t != [] {
      SortedFirst(s, t[..|t| - 1]);
      SortCounts(s, t[|t| - 1]);
    }
  }

  lemma {:induction false} InsertPairs(s: seq<int>, t: seq<int>, x: int)
    ensures Pairs(s, Insert(t, x)) == Pairs(s, t) + Passed(s, x)
  {
    var r := Insert(t, x);
    if t == [] || t[|t| - 1] <= x {
      assert r[..|r| - 1] == t;
    } else {
      InsertPairs(s, t[..|t| - 1], x);
      assert r[..|r| - 1] == Insert(t[..|t| - 1], x);
    }
  }

  lemma {:induction false} SortedSecond(s: seq<int>, t: seq<int>)
    ensures Pairs(s, Sort(t)) == Pairs(s, t)
  {
    if t != [] {
      SortedSecond(s, t[..|t| - 1]);
      InsertPairs(s, Sort(t[..|t| - 1]), t[|t| - 1]);
    }
  }

  // ---------------------------------------------------------------- the algebra of the statistic

  lemma {:induction false} Complement(s: seq<int>, y: int)
    ensures Passed(s, y) + Pairs([y], s) == 2 * |s|
  {
    if s != [] {
      Complement(s[..|s| - 1], y);
      assert [y][..0] == [];
      assert Less([y], s[|s| - 1]) == (if y < s[|s| - 1] then 1 else 0) + Less([], s[|s| - 1]);
      assert Equal([y], s[|s| - 1]) == (if y == s[|s| - 1] then 1 else 0) + Equal([], s[|s| - 1]);
    }
  }

  lemma {:induction false} PairsSplit(s: seq<int>, y: int, t: seq<int>)
    ensures Pairs(s + [y], t) == Pairs(s, t) + Pairs([y], t)
  {
    if t != [] {
      PairsSplit(s, y, t[..|t| - 1]);
      assert (s + [y])[..|s|] == s && [y][..0] == [];
      var v := t[|t| - 1];
      assert Less([y], v) == (if y < v then 1 else 0) + Less([], v);
      assert Equal([y], v) == (if y == v then 1 else 0) + Equal([], v);
    }
  }

  /** Every pair is counted twice in all, once from either side. */
  lemma {:induction false} PairsComplement(s: seq<int>, t: seq<int>, pairs: nat)
    requires pairs == |s| * |t|
    ensures Pairs(s, t) + Pairs(t, s) == 2 * pairs
  {
    if t == [] {
      NoPairs(s);
    } else {
      var front, y := t[..|t| - 1], t[|t| - 1];
      TimesNext(|s|, |front|, pairs);
      PairsComplement(s, front, pairs - |s|);
      Complement(s, y);
      PairsSplit(front, y, s);
      assert t == front + [y];
    }
  }

  lemma TimesNext(m: nat, k: nat, product: nat)
    requires product == m * (k + 1)
    ensures product - m == m * k
  {
  }

  lemma {:induction false} NoPairs(s: seq<int>)
    ensures Pairs([], s) == 0
  {
    if s != [] { NoPairs(s[..|s| - 1]); }
  }

  // ---------------------------------------------------------------- the merge loop

  /** Everything passed in either sample is below everything left in the other. */
  ghost predicate Parted(a: seq<int>, b: seq<int>, p1: nat, p2: nat)
    requires p1 <= |a| && p2 <= |b|
  {
    && (forall i, j :: 0 <= i < p1 && p2 <= j < |b| ==> a[i] < b[j])
    && (forall i, j :: p1 <= i < |a| && 0 <= j < p2 ==> b[j] < a[i])
  }

  lemma {:induction false} CountsAt(s: seq<int>, lo: nat, hi: nat, v: int)
    requires lo <= hi <= |s|
    requires forall i :: 0 <= i < |s| ==> (s[i] < v <==> i < lo) && (s[i] == v <==> lo <= i < hi)
    ensures Less(s, v) == lo && Equal(s, v) == hi - lo
  {
    if s != [] {
      var m := |s| - 1;
      CountsAt(s[..m], if lo <= m then lo else m, if hi <= m then hi else m, v);
    }
  }

  lemma {:induction false} PairsSnoc(s: seq<int>, vs: seq<int>, p: nat)
    requires p < |vs|
    ensures Pairs(s, vs[..p + 1]) == Pairs(s, vs[..p]) + Passed(s, vs[p])
  {
    assert vs[..p + 1][..p] == vs[..p];
  }

  lemma {:induction false} SumSnoc(kind: Kind, s: seq<int>, t: seq<int>, vs: seq<int>, p: nat)
    requires p < |vs|
    ensures Sum(kind, s, t, vs[..p + 1]) == Sum(kind, s, t, vs[..p]) + CountsOf(s, t, vs[p]).Each(kind)
  {
    assert vs[..p + 1][..p] == vs[..p];
  }

  /** A stretch of values that all pass the same number of values of s. */
  lemma {:induction false} PairsSpan(s: seq<int>, vs: seq<int>, p: nat, q: nat, c: nat)
    requires p <= q <= |vs| && forall i :: p <= i < q ==> Passed(s, vs[i]) == c
    ensures Pairs(s, vs[..q]) == Pairs(s, vs[..p]) + Times(q - p, c)
  {
    if p < q {
      PairsSpan(s, vs, p, q - 1, c);
      PairsSnoc(s, vs, q - 1);
    }
  }

  lemma {:induction false} SumSpan(kind: Kind, s: seq<int>, t: seq<int>, vs: seq<int>, p: nat, q: nat, c: real)
    requires p <= q <= |vs| && forall i :: p <= i < q ==> CountsOf(s, t, vs[i]).Each(kind) == c
    ensures Sum(kind, s, t, vs[..q]) == Sum(kind, s, t, vs[..p]) + Portion(q - p, c)
  {
    if p < q {
      SumSpan(kind, s, t, vs, p, q - 1, c);
      SumSnoc(kind, s, t, vs, q - 1);
    }
  }

  /** The values left when the other sample is used up. */
  lemma {:induction false} RestCounts(s: seq<int>, t: seq<int>, p: nat, kind: Kind)
    requires p <= |s| && forall i :: p <= i < |s| ==> AllBelow(t, s[i])
    ensures Pairs(t, s) == Pairs(t, s[..p]) + Times(|s| - p, 2 * |t|)
    ensures Sum(kind, s, t, s) == Sum(kind, s, t, s[..p])
  {
    forall i | p <= i < |s|
      ensures Passed(t, s[i]) == 2 * |t| && CountsOf(s, t, s[i]).Each(kind) == 0.0
    {
      CountsAt(t, |t|, |t|, s[i]);
    }
    assert s[..|s|] == s;
    PairsSpan(t, s, p, |s|, 2 * |t|);
    SumSpan(kind, s, t, s, p, |s|, 0.0);
    PortionIs(|s| - p, 0.0);
  }

  predicate AllBelow(t: seq<int>, v: int) {
    forall j :: 0 <= j < |t| ==> t[j] < v
  }

  /** The sum of the ranks from i up to, not including, j. */
  function RankSum(i: nat, j: nat): nat
    requires i <= j
  {
    if i == j then 0 else RankSum(i, j - 1) + (j - 1)
  }

  lemma {:induction false} Gauss(i: nat, j: nat)
    requires 0 < i <= j
    ensures 2 * RankSum(i, j) == (j - i) * (i + j - 1)
  {
    if i < j {
      Gauss(i, j - 1);
      assert (j - i) * (i + j - 1) == (j - 1 - i) * (i + j - 2) + 2 * (j - 1);
    }
  }

  /** What an unsigned result of 32 bits loses by wrapping. */
  function Wrapped(x: nat): (w: nat)
    ensures w == x - x % U32
    ensures w == 0 <==> x < U32
  {
    x / U32 * U32
  }

  /**
   * What is added up over the values found in both samples: degree^3 - degree, what
   * wrapping takes from it, and what wrapping takes from the sum of the ranks.
   */
  datatype Kind = TieShares | ShareLosses | RankLosses

  /** How many values of either sample are below v, and how many equal it. */
  datatype Counts = Counts(below1: nat, equal1: nat, below2: nat, equal2: nat) {
    predicate Both() { equal1 > 0 && equal2 > 0 }

    /** The sum of the ranks of a value found in both samples. */
    function Ranks(): nat {
      var below := below1 + below2;
      if Both() then RankSum(below + 1, below + equal1 + equal2 + 1) else 0
    }

    /** What such a value contributes to the tie term. */
    function Share(): nat {
      if Both() then TieShare(equal1 + equal2) else 0
    }

    function Whole(kind: Kind): nat {
      match kind
      case TieShares => Share()
      case ShareLosses => Wrapped(Share())
      case RankLosses => Wrapped(Ranks())
    }

    /** The part of one occurrence. */
    function Each(kind: Kind): real {
      if Both() then Whole(kind) as real / (equal1 + equal2) as real else 0.0
    }

    function Swap(): Counts { Counts(below2, equal2, below1, equal1) }
  }

  function CountsOf(a: seq<int>, b: seq<int>, v: int): Counts {
    Counts(Less(a, v), Equal(a, v), Less(b, v), Equal(b, v))
  }

  /** No sum of the ranks of a tied value wraps. */
  ghost predicate RanksFit(a: seq<int>, b: seq<int>) {
    forall v :: CountsOf(a, b, v).Ranks() < U32
  }

  /** No contribution to the tie term wraps. */
  ghost predicate DegreesFit(a: seq<int>, b: seq<int>) {
    forall v :: CountsOf(a, b, v).Share() < U32
  }

  /** The sum over the values in vs, all of them values of s. */
  function Sum(kind: Kind, s: seq<int>, t: seq<int>, vs: seq<int>): real {
    if vs == [] then 0.0 else Sum(kind, s, t, vs[..|vs| - 1]) + CountsOf(s, t, vs[|vs| - 1]).Each(kind)
  }

  lemma EachSign(c: Counts, kind: Kind)
    ensures c.Each(kind) >= 0.0
    ensures c.Each(kind) == 0.0 <==> c.Whole(kind) == 0
  {
    if c.Both() { QuotientSign(c.Whole(kind) as real, (c.equal1 + c.equal2) as real); }
  }

  lemma SwapSame(c: Counts, kind: Kind)
    ensures c.Swap().Each(kind) == c.Each(kind) && c.Swap().Whole(kind) == c.Whole(kind)
  {
  }

  /** A sum is nothing exactly if no value adds to it. */
  lemma {:induction false} SumNothing(kind: Kind, s: seq<int>, t: seq<int>, vs: seq<int>)
    ensures Sum(kind, s, t, vs) >= 0.0
    ensures Sum(kind, s, t, vs) == 0.0 <==> forall i :: 0 <= i < |vs| ==> CountsOf(s, t, vs[i]).Whole(kind) == 0
  {
    if vs != [] {
      var m := |vs| - 1;
      SumNothing(kind, s, t, vs[..m]);
      EachSign(CountsOf(s, t, vs[m]), kind);
      assert forall i :: 0 <= i < m ==> vs[..m][i] == vs[i];
    }
  }

  lemma {:induction false} EqualNone(s: seq<int>, v: int)
    ensures v !in s ==> Equal(s, v) == 0
  {
    if s != [] { EqualNone(s[..|s| - 1], v); }
  }

  lemma {:induction false} LosesNothing(kind: Kind, s: seq<int>, t: seq<int>)
    ensures Sum(kind, s, t, s) >= 0.0
    ensures Sum(kind, s, t, s) == 0.0 <==> forall v :: CountsOf(s, t, v).Whole(kind) == 0
  {
    SumNothing(kind, s, t, s);
    if forall i :: 0 <= i < |s| ==> CountsOf(s, t, s[i]).Whole(kind) == 0 {
      forall v
        ensures CountsOf(s, t, v).Whole(kind) == 0
      {
        EqualNone(s, v);
        if v in s {
          var i :| 0 <= i < |s| && s[i] == v;
        }
      }
    }
  }

  /** Nothing is lost, in either sample, exactly if the results fit. */
  lemma {:induction false} LossesIff(s: seq<int>, t: seq<int>)
    ensures Sum(RankLosses, s, t, s) >= 0.0 && Sum(ShareLosses, s, t, s) >= 0.0
    ensures Sum(RankLosses, s, t, s) == 0.0 <==> RanksFit(s, t)
    ensures Sum(ShareLosses, s, t, s) == 0.0 <==> DegreesFit(s, t)
  {
    LosesNothing(RankLosses, s, t);
    LosesNothing(ShareLosses, s, t);
    assert RanksFit(s, t) <==> forall v :: CountsOf(s, t, v).Whole(RankLosses) == 0;
    assert DegreesFit(s, t) <==> forall v :: CountsOf(s, t, v).Whole(ShareLosses) == 0;
  }

  lemma FitsSwap(s: seq<int>, t: seq<int>)
    ensures RanksFit(s, t) <==> RanksFit(t, s)
    ensures DegreesFit(s, t) <==> DegreesFit(t, s)
  {
    forall v
      ensures CountsOf(s, t, v).Ranks() == CountsOf(t, s, v).Ranks()
              && CountsOf(s, t, v).Share() == CountsOf(t, s, v).Share()
    {
    }
  }

  /** How many values of either sample have been passed, and what has been added up. */
  datatype Sums = Sums(p1: nat, p2: nat, rs1: real, rs2: real, tc: real) {
    function Swap(): Sums { Sums(p2, p1, rs2, rs1, tc) }
  }

  ghost predicate RanksAre(a: seq<int>, b: seq<int>, x: Sums)
    requires x.p1 <= |a| && x.p2 <= |b|
  {
    && SumIs(x.p1, x.rs1, Pairs(b, a[..x.p1]), Sum(RankLosses, a, b, a[..x.p1]))
    && SumIs(x.p2, x.rs2, Pairs(a, b[..x.p2]), Sum(RankLosses, b, a, b[..x.p2]))
  }

  /** The rank sum of p values that pass pairs / 2 values of the other sample, less what was lost. */
  predicate SumIs(p: nat, rs: real, pairs: nat, lost: real) {
    2.0 * rs == (2 * RankSum(1, p + 1) + pairs) as real - 2.0 * lost
  }

  ghost predicate TiesAre(a: seq<int>, b: seq<int>, x: Sums)
    requires x.p1 <= |a| && x.p2 <= |b|
  {
    x.tc == TiesPart(a, b, x.p1) + TiesPart(b, a, x.p2)
  }

  /** What the first p values of s contribute to the tie term, less what was lost. */
  ghost function TiesPart(s: seq<int>, t: seq<int>, p: nat): real
    requires p <= |s|
  {
    Sum(TieShares, s, t, s[..p]) - Sum(ShareLosses, s, t, s[..p])
  }

  ghost predicate Tally(a: seq<int>, b: seq<int>, x: Sums) {
    && x.p1 <= |a| && x.p2 <= |b| && Parted(a, b, x.p1, x.p2)
    && RanksAre(a, b, x)
    && TiesAre(a, b, x)
  }

  /** A value that is in one sample only: what it passes, and that it adds to no sum. */
  lemma {:induction false} NextPairs(a: seq<int>, b: seq<int>, p1: nat, p2: nat, kind: Kind)
    requires Sorted(a) && Sorted(b) && p1 < |a| && p2 < |b| && a[p1] < b[p2] && Parted(a, b, p1, p2)
    ensures Pairs(b, a[..p1 + 1]) == Pairs(b, a[..p1]) + 2 * p2
    ensures Sum(kind, a, b, a[..p1 + 1]) == Sum(kind, a, b, a[..p1])
  {
    CountsAt(b, p2, p2, a[p1]);
    PairsSnoc(b, a, p1);
    SumSnoc(kind, a, b, a, p1);
  }

  /** The smaller value gets the next rank. */
  lemma TallyNext(a: seq<int>, b: seq<int>, x: Sums)
    requires Tally(a, b, x) && Sorted(a) && Sorted(b)
    requires x.p1 < |a| && x.p2 < |b| && a[x.p1] < b[x.p2]
    ensures Tally(a, b, x.(p1 := x.p1 + 1, rs1 := x.rs1 + (x.p1 + x.p2 + 1) as real))
  {
    NextPairs(a, b, x.p1, x.p2, RankLosses);
    NextPairs(a, b, x.p1, x.p2, ShareLosses);
    NextPairs(a, b, x.p1, x.p2, TieShares);
  }

  lemma TallySwap(a: seq<int>, b: seq<int>, x: Sums)
    requires Tally(a, b, x)
    ensures Tally(b, a, x.Swap())
  {
  }

  lemma TallyNextSecond(a: seq<int>, b: seq<int>, x: Sums)
    requires Tally(a, b, x) && Sorted(a) && Sorted(b)
    requires x.p1 < |a| && x.p2 < |b| && b[x.p2] < a[x.p1]
    ensures Tally(a, b, x.(p2 := x.p2 + 1, rs2 := x.rs2 + (x.p1 + x.p2 + 1) as real))
  {
    TallySwap(a, b, x);
    TallyNext(b, a, x.Swap());
    TallySwap(b, a, x.Swap().(p1 := x.p2 + 1, rs1 := x.rs2 + (x.p1 + x.p2 + 1) as real));
  }

  lemma WrapAdds(x: nat, y: nat, z: nat)
    requires x == y % U32
    ensures (x + z) % U32 == (y + z) % U32
  {
  }

  /** The do-while loop over the occurrences of a tied value in one sample. */
  method TiedRun(s: seq<int>, it: nat, i: nat, tieRs: nat) returns (occurrences: nat, it': nat, i': nat, tieRs': nat)
    requires it < |s| && Sorted(s) && tieRs < U32
    ensures it < it' <= |s| && occurrences == it' - it && i' == i + occurrences
    ensures forall k :: it <= k < it' ==> s[k] == s[it]
    ensures forall k :: it' <= k < |s| ==> s[it] < s[k]
    ensures tieRs' == (tieRs + RankSum(i, i')) % U32
  {
    it', i', tieRs' := it + 1, i + 1, (tieRs + i) % U32;
    assert RankSum(i, i) == 0 && RankSum(i, i + 1) == i;
    while it' < |s| && s[it'] == s[it]
      invariant it < it' <= |s| && i' == i + (it' - it)
      invariant forall k :: it <= k < it' ==> s[k] == s[it]
      invariant tieRs' == (tieRs + RankSum(i, i')) % U32
    {
      WrapAdds(tieRs', tieRs + RankSum(i, i'), i');
      tieRs' := (tieRs' + i') % U32;
      it', i' := it' + 1, i' + 1;
    }
    occurrences := it' - it;
  }

  /**
   * The mean of the ranks of a tied value, times k occurrences; the sum of the ranks may have
   * lost a multiple of 2^32.
   */
  lemma MeanRank(i: nat, to: nat, ranks: nat, lost: nat, mean: real, k: nat, gain: real, loss: real)
    requires 0 < i && 0 < to && ranks == RankSum(i, i + to)
    requires mean == (ranks - lost) as real / to as real && loss == lost as real / to as real
             && gain == k as real * mean
    ensures 2.0 * gain == (k * (2 * i + to - 1)) as real - 2.0 * Portion(k, loss)
  {
    Gauss(i, i + to);
    var m := 2 * i + to - 1;
    assert 2 * ranks == to * m;
    TwiceMean(to, m, ranks, lost, mean, loss);
    PortionIs(k, loss);
    assert 2.0 * gain == k as real * (m as real - 2.0 * loss);
  }

  lemma TwiceMean(to: nat, m: nat, ranks: nat, lost: nat, mean: real, loss: real)
    requires 0 < to && 2 * ranks == to * m
    requires mean == (ranks - lost) as real / to as real && loss == lost as real / to as real
    ensures 2.0 * mean == m as real - 2.0 * loss
  {
    assert mean * to as real == ranks as real - lost as real;
    assert loss * to as real == lost as real;
    assert 2.0 * ranks as real == to as real * m as real;
    Cancels(to as real, 2.0 * mean, m as real - 2.0 * loss);
  }

  /** No rank sum exceeds the sum of all ranks. */
  lemma RankSumFits(i: nat, j: nat, n: nat)
    requires 0 < i <= j <= n + 1
    ensures RankSum(i, j) <= RankSum(1, n + 1)
  {
    RankSumJoins(1, i, j);
    RankSumJoins(1, j, n + 1);
  }

  /** How often the value of a tied group occurs, and how many are below. */
  lemma {:induction false} RunCounts(a: seq<int>, b: seq<int>, p1: nat, p2: nat, q1: nat, q2: nat, v: int)
    requires Sorted(a) && Sorted(b) && p1 < q1 <= |a| && p2 < q2 <= |b| && Parted(a, b, p1, p2)
    requires RunAt(a, p1, q1, v) && RunAt(b, p2, q2, v)
    ensures Less(a, v) == p1 && Equal(a, v) == q1 - p1
  {
    forall i | 0 <= i < |a|
      ensures (a[i] < v <==> i < p1) && (a[i] == v <==> p1 <= i < q1)
    {
      if i < p1 { assert a[i] < b[p2]; }
    }
    CountsAt(a, p1, q1, v);
  }

  /** How often the value of a tied group occurs in either sample. */
  lemma GroupCounted(a: seq<int>, b: seq<int>, p1: nat, p2: nat, q1: nat, q2: nat, v: int)
    requires Sorted(a) && Sorted(b) && p1 < q1 <= |a| && p2 < q2 <= |b| && Parted(a, b, p1, p2)
    requires RunAt(a, p1, q1, v) && RunAt(b, p2, q2, v)
    ensures CountsOf(a, b, v) == Counts(p1, q1 - p1, p2, q2 - p2)
  {
    RunCounts(a, b, p1, p2, q1, q2, v);
    RunCounts(b, a, p2, p1, q2, q1, v);
  }

  /** What the occurrences of a tied value pass of the other sample. */
  lemma PairsTied(a: seq<int>, b: seq<int>, p1: nat, p2: nat, q1: nat, q2: nat, v: int)
    requires p1 < q1 <= |a| && p2 < q2 <= |b| && CountsOf(a, b, v) == Counts(p1, q1 - p1, p2, q2 - p2)
    requires RunAt(a, p1, q1, v)
    ensures Pairs(b, a[..q1]) == Pairs(b, a[..p1]) + Times(q1 - p1, p2 + q2)
  {
    PairsSpan(b, a, p1, q1, p2 + q2);
  }

  /** What they add to a sum. */
  lemma {:induction false} SumTied(kind: Kind, s: seq<int>, t: seq<int>, p: nat, q: nat, v: int, c: Counts)
    requires p <= q && RunAt(s, p, q, v) && c == CountsOf(s, t, v)
    ensures Sum(kind, s, t, s[..q]) == Sum(kind, s, t, s[..p]) + Portion(q - p, c.Each(kind))
  {
    SumSpan(kind, s, t, s, p, q, c.Each(kind));
  }

  lemma RunsParted(a: seq<int>, b: seq<int>, p1: nat, p2: nat, q1: nat, q2: nat, v: int)
    requires p1 < q1 <= |a| && p2 < q2 <= |b| && Parted(a, b, p1, p2)
    requires RunAt(a, p1, q1, v) && RunAt(b, p2, q2, v)
    ensures Parted(a, b, q1, q2)
  {
  }

  predicate RunAt(s: seq<int>, p: nat, q: nat, v: int) {
    && p <= q <= |s|
    && (forall k :: p <= k < q ==> s[k] == v)
    && (forall k :: q <= k < |s| ==> v < s[k])
  }

  /**
   * What k occurrences of a tied value after p values add to a rank sum, each of them
   * passing others / 2 values of the other sample.
   */
  predicate GainIs(gain: real, p: nat, k: nat, others: nat, loss: real) {
    2.0 * gain == Shift(p, p + k, others) as real - 2.0 * Portion(k, loss)
  }

  /** What a tied group adds to both rank sums and to the tie term, c being the counts of its value. */
  predicate Gains(c: Counts, gain1: real, gain2: real, share: nat) {
    && GainIs(gain1, c.below1, c.equal1, 2 * c.below2 + c.equal2, c.Each(RankLosses))
    && GainIs(gain2, c.below2, c.equal2, 2 * c.below1 + c.equal1, c.Each(RankLosses))
    && share == c.Share() % U32
  }

  /** One rank sum after a tied group. */
  lemma RanksGroup(s: seq<int>, t: seq<int>, p: nat, q: nat, v: int, others: nat, more: nat, rs: real, gain: real,
                   loss: real)
    requires p < q <= |s| && RunAt(s, p, q, v) && CountsOf(s, t, v).Each(RankLosses) == loss
    requires SumIs(p, rs, Pairs(t, s[..p]), Sum(RankLosses, s, t, s[..p]))
    requires more == Times(q - p, others) && Pairs(t, s[..q]) == Pairs(t, s[..p]) + more
    requires GainIs(gain, p, q - p, others, loss)
    ensures SumIs(q, rs + gain, Pairs(t, s[..q]), Sum(RankLosses, s, t, s[..q]))
  {
    SumTied(RankLosses, s, t, p, q, v, CountsOf(s, t, v));
    GroupSum(p, q, others, more, rs, rs + gain, Pairs(t, s[..p]), Sum(RankLosses, s, t, s[..p]), Portion(q - p, loss));
  }

  /** The group of v lies next in both samples; c are its counts. */
  ghost predicate GroupNext(a: seq<int>, b: seq<int>, x: Sums, y: Sums, v: int, c: Counts) {
    && x.p1 < y.p1 <= |a| && x.p2 < y.p2 <= |b|
    && RunAt(a, x.p1, y.p1, v) && RunAt(b, x.p2, y.p2, v)
    && CountsOf(a, b, v) == c == Counts(x.p1, y.p1 - x.p1, x.p2, y.p2 - x.p2)
  }

  /** Adding up a tied group, whose ranks and mean rank have been worked out. */
  lemma TallyGroup(a: seq<int>, b: seq<int>, x: Sums, y: Sums, v: int, c: Counts, gain1: real, gain2: real, share: nat)
    requires Tally(a, b, x) && GroupNext(a, b, x, y, v, c) && Gains(c, gain1, gain2, share)
    requires y.rs1 == x.rs1 + gain1 && y.rs2 == x.rs2 + gain2 && y.tc == x.tc + share as real
    ensures Tally(a, b, y)
  {
    RunsParted(a, b, x.p1, x.p2, y.p1, y.p2, v);
    RanksGrow(a, b, x, y, v, c, gain1, gain2, share);
    TiesGrow(a, b, x, y, v, c, gain1, gain2, share);
  }

  lemma RanksGrow(a: seq<int>, b: seq<int>, x: Sums, y: Sums, v: int, c: Counts, gain1: real, gain2: real, share: nat)
    requires GroupNext(a, b, x, y, v, c) && RanksAre(a, b, x) && Gains(c, gain1, gain2, share)
    requires y.rs1 == x.rs1 + gain1 && y.rs2 == x.rs2 + gain2
    ensures RanksAre(a, b, y)
  {
    FirstGrows(a, b, x, y, v, c, gain1);
    SwapSame(c, RankLosses);
    FirstGrows(b, a, x.Swap(), y.Swap(), v, c.Swap(), gain2);
  }

  lemma {:induction false} FirstGrows(a: seq<int>, b: seq<int>, x: Sums, y: Sums, v: int, c: Counts, gain: real)
    requires GroupNext(a, b, x, y, v, c) && SumIs(x.p1, x.rs1, Pairs(b, a[..x.p1]), Sum(RankLosses, a, b, a[..x.p1]))
    requires GainIs(gain, c.below1, c.equal1, 2 * c.below2 + c.equal2, c.Each(RankLosses)) && y.rs1 == x.rs1 + gain
    ensures SumIs(y.p1, y.rs1, Pairs(b, a[..y.p1]), Sum(RankLosses, a, b, a[..y.p1]))
  {
    var others := x.p2 + y.p2;
    PairsTied(a, b, x.p1, x.p2, y.p1, y.p2, v);
    RanksGroup(a, b, x.p1, y.p1, v, others, Times(c.equal1, others), x.rs1, gain, c.Each(RankLosses));
  }

  lemma TiesGrow(a: seq<int>, b: seq<int>, x: Sums, y: Sums, v: int, c: Counts, gain1: real, gain2: real, share: nat)
    requires GroupNext(a, b, x, y, v, c) && TiesAre(a, b, x) && Gains(c, gain1, gain2, share)
    requires y.tc == x.tc + share as real
    ensures TiesAre(a, b, y)
  {
    SumsGrow(TieShares, a, b, x, y, v, c);
    SumsGrow(ShareLosses, a, b, x, y, v, c);
  }

  /** A tied group adds its whole part to the two samples' sums together. */
  lemma {:induction false} SumsGrow(kind: Kind, a: seq<int>, b: seq<int>, x: Sums, y: Sums, v: int, c: Counts)
    requires GroupNext(a, b, x, y, v, c)
    ensures Sum(kind, a, b, a[..y.p1]) + Sum(kind, b, a, b[..y.p2])
            == Sum(kind, a, b, a[..x.p1]) + Sum(kind, b, a, b[..x.p2]) + c.Whole(kind) as real
  {
    FirstAdds(kind, a, b, x, y, v, c);
    FirstAdds(kind, b, a, x.Swap(), y.Swap(), v, c.Swap());
    SwapSame(c, kind);
    WholeIs(c, kind);
  }

  lemma {:induction false} FirstAdds(kind: Kind, a: seq<int>, b: seq<int>, x: Sums, y: Sums, v: int, c: Counts)
    requires GroupNext(a, b, x, y, v, c)
    ensures Sum(kind, a, b, a[..y.p1]) == Sum(kind, a, b, a[..x.p1]) + Portion(c.equal1, c.Each(kind))
  {
    SumTied(kind, a, b, x.p1, y.p1, v, c);
  }

  lemma WholeIs(c: Counts, kind: Kind)
    requires c.Both()
    ensures Portion(c.equal1, c.Each(kind)) + Portion(c.equal2, c.Each(kind)) == c.Whole(kind) as real
  {
    PartsJoin(c.equal1, c.equal2, c.equal1 + c.equal2, c.Whole(kind), c.Each(kind));
  }

  lemma {:induction false} GroupSum(p: nat, q: nat, others: nat, gain: nat, rs: real, rs': real, pairs: nat,
                                    lost: real, more: real)
    requires p <= q && SumIs(p, rs, pairs, lost) && gain == Times(q - p, others)
    requires 2.0 * rs' == 2.0 * rs + Shift(p, q, others) as real - 2.0 * more
    ensures SumIs(q, rs', pairs + gain, lost + more)
  {
  }

  /** Twice what q - p equal values at ranks p + 1 to q add, when each passes others / 2 of the other sample. */
  function Shift(p: nat, q: nat, others: nat): int
    requires p <= q
  {
    2 * RankSum(1, q + 1) - 2 * RankSum(1, p + 1) + Times(q - p, others)
  }

  lemma RankGroup(p: nat, q: nat, m: nat, i: nat, k: nat, to: nat, others: nat)
    requires p <= q && k == q - p && i == p + m + 1 && k <= to && others == 2 * m + (to - k)
    ensures k * (2 * i + to - 1) == Shift(p, q, others)
  {
    TimesIs(k, others);
    Gauss(1, q + 1);
    Gauss(1, p + 1);
    Triangles(p, q, k);
    Distributes(k, 2 * p + k + 1, others, 2 * i + to - 1);
  }

  lemma Triangles(p: nat, q: nat, k: nat)
    requires q == p + k
    ensures q * (q + 1) == p * (p + 1) + k * (2 * p + k + 1)
  {
  }

  lemma Distributes(k: nat, x: nat, y: nat, sum: nat)
    requires sum == x + y
    ensures k * sum == k * x + k * y
  {
  }

  /** One sample's share of a tied group. */
  lemma TieRanks(p1: nat, p2: nat, q1: nat, q2: nat, ranks: nat, lost: nat, to1: nat, to: nat, tieRank: real,
                 gain: real, loss: real)
    requires p1 < q1 && p2 < q2 && ranks == RankSum(p1 + p2 + 1, q1 + q2 + 1)
    requires to1 == q1 - p1 && to == to1 + (q2 - p2) && gain == to1 as real * tieRank
    requires tieRank == (ranks - lost) as real / to as real && loss == lost as real / to as real
    ensures 2.0 * gain == Shift(p1, q1, p2 + q2) as real - 2.0 * Portion(to1, loss)
  {
    var i := p1 + p2 + 1;
    MeanRank(i, to, ranks, lost, tieRank, to1, gain, loss);
    RankGroup(p1, q1, p2, i, to1, to, p2 + q2);
  }

  lemma Mono(x: nat, y: nat, z: nat)
    requires x <= y
    ensures x * z <= y * z
  {
  }

  lemma CubeFits(degree: nat, n: nat)
    requires degree <= n
    ensures degree <= degree * degree * degree <= n * n * n
  {
    var d2, n2 := degree * degree, n * n;
    Mono(degree, n, degree);
    Mono(degree, n, n);
    assert d2 <= n2;
    Mono(d2, n2, degree);
    Mono(degree, n, n2);
    if degree > 0 {
      Mono(1, degree, degree);
      Mono(1, d2, degree);
    }
  }

  /** What a tie degree contributes to the tie term. */
  function TieShare(degree: nat): nat {
    CubeFits(degree, degree);
    degree * degree * degree - degree
  }

  /** Both samples' shares of the ranks of a tied group. */
  lemma RanksShared(c: Counts, ranks: nat, lost: nat, tieRank: real, gain1: real, gain2: real, loss: real)
    requires c.Both() && ranks == RankSum(c.below1 + c.below2 + 1, c.below1 + c.equal1 + (c.below2 + c.equal2) + 1)
    requires tieRank == (ranks - lost) as real / (c.equal1 + c.equal2) as real
             && loss == lost as real / (c.equal1 + c.equal2) as real
    requires gain1 == c.equal1 as real * tieRank && gain2 == c.equal2 as real * tieRank
    ensures GainIs(gain1, c.below1, c.equal1, 2 * c.below2 + c.equal2, loss)
    ensures GainIs(gain2, c.below2, c.equal2, 2 * c.below1 + c.equal1, loss)
  {
    var q1, q2, to := c.below1 + c.equal1, c.below2 + c.equal2, c.equal1 + c.equal2;
    TieRanks(c.below1, c.below2, q1, q2, ranks, lost, c.equal1, to, tieRank, gain1, loss);
    TieRanks(c.below2, c.below1, q2, q1, ranks, lost, c.equal2, to, tieRank, gain2, loss);
  }

  /** The parts of all occurrences make up the whole. */
  lemma {:induction false} PartsJoin(x: nat, y: nat, to: nat, whole: nat, part: real)
    requires x + y == to > 0 && part == whole as real / to as real
    ensures Portion(x, part) + Portion(y, part) == whole as real
  {
    PortionsJoin(x, y, part);
    PortionIs(to, part);
    QuotientTimes(whole as real, to as real);
  }

  /** The ranks left when a sample is used up, added one by one. */
  method AddRest(i: nat, n: nat, rs: real) returns (rs': real, i': nat)
    requires 0 < i <= n + 1
    ensures i' == n + 1 && rs' == rs + RankSum(i, n + 1) as real
  {
    rs', i' := rs, i;
    while i' <= n
      invariant i <= i' <= n + 1
      invariant rs' == rs + RankSum(i, i') as real
    {
      rs' := rs' + i' as real;
      i' := i' + 1;
    }
  }

  lemma {:induction false} RestGroup(p: nat, q: nat, m: nat)
    requires p <= q
    ensures 2 * RankSum(p + m + 1, q + m + 1) == Shift(p, q, 2 * m)
  {
    Gauss(p + m + 1, q + m + 1);
    RankGroup(p, q, m, p + m + 1, q - p, q - p, 2 * m);
  }

  lemma {:induction false} RestPairs(a: seq<int>, b: seq<int>, p: nat, kind: Kind)
    requires p <= |a| && Parted(a, b, p, |b|)
    ensures Pairs(b, a[..|a|]) == Pairs(b, a[..p]) + Times(|a| - p, 2 * |b|)
    ensures Sum(kind, a, b, a[..|a|]) == Sum(kind, a, b, a[..p])
  {
    RestCounts(a, b, p, kind);
    assert a[..|a|] == a;
  }

  lemma RestTies(a: seq<int>, b: seq<int>, p: nat)
    requires p <= |a| && Parted(a, b, p, |b|)
    ensures TiesPart(a, b, |a|) == TiesPart(a, b, p)
  {
    RestPairs(a, b, p, TieShares);
    RestPairs(a, b, p, ShareLosses);
  }

  lemma RestSum(p: nat, q: nat, m: nat, rs: nat, rs1: real, pairs: nat, gain: nat, lost: real)
    requires p <= q && rs == RankSum(p + m + 1, q + m + 1) && gain == Times(q - p, 2 * m) && SumIs(p, rs1, pairs, lost)
    ensures SumIs(q, rs1 + rs as real, pairs + gain, lost)
  {
    RestGroup(p, q, m);
    GroupSum(p, q, 2 * m, gain, rs1, rs1 + rs as real, pairs, lost, 0.0);
  }

  lemma {:induction false} RestRanks(a: seq<int>, b: seq<int>, p: nat, rs1: real, rs: nat)
    requires p <= |a| && Parted(a, b, p, |b|) && rs == RankSum(p + |b| + 1, |a| + |b| + 1)
    requires SumIs(p, rs1, Pairs(b, a[..p]), Sum(RankLosses, a, b, a[..p]))
    ensures SumIs(|a|, rs1 + rs as real, Pairs(b, a[..|a|]), Sum(RankLosses, a, b, a[..|a|]))
  {
    RestPairs(a, b, p, RankLosses);
    RestSum(p, |a|, |b|, rs, rs1, Pairs(b, a[..p]), Times(|a| - p, 2 * |b|), Sum(RankLosses, a, b, a[..p]));
  }

  /** Sample b is used up: the rest of the ranks belong to a. */
  lemma {:induction false} TallyRest(a: seq<int>, b: seq<int>, x: Sums, rs: nat)
    requires Tally(a, b, x) && x.p2 == |b| && rs == RankSum(x.p1 + |b| + 1, |a| + |b| + 1)
    ensures Tally(a, b, x.(p1 := |a|, rs1 := x.rs1 + rs as real))
  {
    RestTies(a, b, x.p1);
    RestRanks(a, b, x.p1, x.rs1, rs);
  }

  // ---------------------------------------------------------------- the test

  /** Both do-while loops. */
  method TiedRuns(a: seq<int>, b: seq<int>, p1: nat, p2: nat, i0: nat)
    returns (to1: nat, to2: nat, it1: nat, it2: nat, i: nat, tieRs: nat)
    requires p1 < |a| && p2 < |b| && a[p1] == b[p2] && Sorted(a) && Sorted(b)
    ensures p1 < it1 && p2 < it2 && to1 == it1 - p1 && to2 == it2 - p2 && i == i0 + to1 + to2
    ensures RunAt(a, p1, it1, a[p1]) && RunAt(b, p2, it2, a[p1])
    ensures tieRs == RankSum(i0, i) % U32
  {
    to1, it1, i, tieRs := TiedRun(a, p1, i0, 0);
    ghost var first := tieRs;
    to2, it2, i, tieRs := TiedRun(b, p2, i, tieRs);
    RankSumJoins(i0, i0 + to1, i);
    WrapAdds(first, RankSum(i0, i0 + to1), RankSum(i0 + to1, i));
  }

  /** What a tied group adds: the mean rank to every occurrence, and its share of the tie term. */
  method TieGains(to1: nat, to2: nat, tieRs: nat, ghost c: Counts) returns (gain1: real, gain2: real, share: nat)
    requires c.Both() && to1 == c.equal1 && to2 == c.equal2 && tieRs == c.Ranks() % U32
    ensures Gains(c, gain1, gain2, share)
  {
    var to := to1 + to2;
    var tieRank := tieRs as real / to as real;
    gain1, gain2 := to1 as real * tieRank, to2 as real * tieRank;
    CubeFits(to, to);
    share := (to * to * to - to) % U32;
    GainsAdd(c, tieRs, tieRank, gain1, gain2);
  }

  lemma GainsAdd(c: Counts, tieRs: nat, tieRank: real, gain1: real, gain2: real)
    requires c.Both() && tieRs == c.Ranks() % U32 && tieRank == tieRs as real / (c.equal1 + c.equal2) as real
    requires gain1 == c.equal1 as real * tieRank && gain2 == c.equal2 as real * tieRank
    ensures GainIs(gain1, c.below1, c.equal1, 2 * c.below2 + c.equal2, c.Each(RankLosses))
    ensures GainIs(gain2, c.below2, c.equal2, 2 * c.below1 + c.equal1, c.Each(RankLosses))
  {
    RanksShared(c, c.Ranks(), Wrapped(c.Ranks()), tieRank, gain1, gain2, c.Each(RankLosses));
  }

  /** The branch for a value in both samples. */
  method TieBranch(a: seq<int>, b: seq<int>, p1: nat, p2: nat, i0: nat, r1: real, r2: real, c: real)
    returns (it1: nat, it2: nat, i: nat, rs1: real, rs2: real, tc: real)
    requires Tally(a, b, Sums(p1, p2, r1, r2, c)) && Sorted(a) && Sorted(b)
    requires p1 < |a| && p2 < |b| && a[p1] == b[p2] && i0 == p1 + p2 + 1
    ensures Tally(a, b, Sums(it1, it2, rs1, rs2, tc)) && p1 < it1 && p2 < it2 && i == it1 + it2
  {
    var tieRs, to1, to2;
    to1, to2, it1, it2, i, tieRs := TiedRuns(a, b, p1, p2, i0);
    i := i - 1;
    ghost var counts := Counts(p1, to1, p2, to2);
    var gain1, gain2, share := TieGains(to1, to2, tieRs, counts);
    rs1 := r1 + gain1;
    rs2 := r2 + gain2;
    tc := c + share as real;
    GroupCounted(a, b, p1, p2, it1, it2, a[p1]);
    TallyGroup(a, b, Sums(p1, p2, r1, r2, c), Sums(it1, it2, rs1, rs2, tc), a[p1], counts, gain1, gain2, share);
  }

  /** The branch for a sample that is used up: the ranks that are left belong to a. */
  method RestBranch(a: seq<int>, b: seq<int>, p1: nat, i0: nat, r1: real, ghost rs2: real, ghost tc: real)
    returns (rs1: real, it1: nat, i: nat)
    requires Tally(a, b, Sums(p1, |b|, r1, rs2, tc)) && i0 == p1 + |b|
    ensures Tally(a, b, Sums(it1, |b|, rs1, rs2, tc)) && it1 == |a| && i == |a| + |b| + 1
  {
    rs1, i := AddRest(i0 + 1, |a| + |b|, r1);
    it1 := |a|;
    TallyRest(a, b, Sums(p1, |b|, r1, rs2, tc), RankSum(i0 + 1, |a| + |b| + 1));
  }

  method RestSecond(a: seq<int>, b: seq<int>, p2: nat, i0: nat, ghost rs1: real, r2: real, ghost tc: real)
    returns (rs2: real, it2: nat, i: nat)
    requires Tally(a, b, Sums(|a|, p2, rs1, r2, tc)) && i0 == |a| + p2
    ensures Tally(a, b, Sums(|a|, it2, rs1, rs2, tc)) && it2 == |b| && i == |a| + |b| + 1
  {
    TallySwap(a, b, Sums(|a|, p2, rs1, r2, tc));
    rs2, it2, i := RestBranch(b, a, p2, i0, r2, rs1, tc);
    TallySwap(b, a, Sums(it2, |a|, rs2, rs1, tc));
  }

  /** The three branches for the values at the front of both samples. */
  method PassNext(a: seq<int>, b: seq<int>, p1: nat, p2: nat, i0: nat, r1: real, r2: real, c: real)
    returns (it1: nat, it2: nat, i: nat, rs1: real, rs2: real, tc: real)
    requires Tally(a, b, Sums(p1, p2, r1, r2, c)) && Sorted(a) && Sorted(b)
    requires p1 < |a| && p2 < |b| && i0 == p1 + p2 + 1
    ensures Tally(a, b, Sums(it1, it2, rs1, rs2, tc)) && i == it1 + it2 && p1 + p2 < i
  {
    it1, it2, i, rs1, rs2, tc := p1, p2, i0, r1, r2, c;
    if a[it1] == b[it2] {
      it1, it2, i, rs1, rs2, tc := TieBranch(a, b, it1, it2, i, rs1, rs2, tc);
    } else if a[it1] < b[it2] {
      TallyNext(a, b, Sums(it1, it2, rs1, rs2, tc));
      rs1 := rs1 + i as real;
      it1 := it1 + 1;
    } else {
      TallyNextSecond(a, b, Sums(it1, it2, rs1, rs2, tc));
      rs2 := rs2 + i as real;
      it2 := it2 + 1;
    }
  }

  /** The merge loop over the sorted samples. */
  method Merge(a: seq<int>, b: seq<int>) returns (rs1: real, rs2: real, tc: real)
    requires a != [] && b != [] && Sorted(a) && Sorted(b)
    ensures Total(a, b, rs1, rs2, tc)
  {
    var n := |a| + |b|;
    rs1, rs2, tc := 0.0, 0.0, 0.0;
    var it1: nat, it2: nat, i: nat := 0, 0, 1;
    NothingPassed(a, b);
    while i <= n
      invariant Tally(a, b, Sums(it1, it2, rs1, rs2, tc))
      invariant i <= n ==> it1 < |a| && it2 < |b| && i == it1 + it2 + 1
      invariant i > n ==> it1 == |a| && it2 == |b|
      decreases n + 2 - i
    {
      it1, it2, i, rs1, rs2, tc := PassNext(a, b, it1, it2, i, rs1, rs2, tc);
      if it1 == |a| {
        rs2, it2, i := RestSecond(a, b, it2, i, rs1, rs2, tc);
      } else if it2 == |b| {
        rs1, it1, i := RestBranch(a, b, it1, i, rs1, rs2, tc);
      }
      i := i + 1;
    }
    TallyTotal(a, b, rs1, rs2, tc);
  }

  lemma NothingPassed(a: seq<int>, b: seq<int>)
    ensures Tally(a, b, Sums(0, 0, 0.0, 0.0, 0.0))
  {
  }

  lemma {:induction false} RankSumJoins(i: nat, j: nat, k: nat)
    requires i <= j <= k
    ensures RankSum(i, j) + RankSum(j, k) == RankSum(i, k)
    decreases k
  {
    if j < k { RankSumJoins(i, j, k - 1); }
  }

  /**
   * The rank sums of two whole samples and the tie correction: what ranking the
   * observations gives, less what the 32-bit results of the tied groups lose.
   */
  ghost predicate Total(a: seq<int>, b: seq<int>, rs1: real, rs2: real, tc: real) {
    && SumIs(|a|, rs1, Pairs(b, a), Sum(RankLosses, a, b, a))
    && SumIs(|b|, rs2, Pairs(a, b), Sum(RankLosses, b, a, b))
    && tc == TieTerm(a, b) - (Sum(ShareLosses, a, b, a) + Sum(ShareLosses, b, a, b))
  }

  lemma TallyTotal(a: seq<int>, b: seq<int>, rs1: real, rs2: real, tc: real)
    requires Tally(a, b, Sums(|a|, |b|, rs1, rs2, tc))
    ensures Total(a, b, rs1, rs2, tc)
  {
    assert a[..|a|] == a && b[..|b|] == b;
  }

  /** The tie term: degree^3 - degree summed over the values found in both samples. */
  function TieTerm(s: seq<int>, t: seq<int>): real {
    Sum(TieShares, s, t, s) + Sum(TieShares, t, s, t)
  }

  /** The order in which the observations arrived does not matter. */
  lemma {:induction false} TotalSorted(s1: seq<int>, s2: seq<int>, a: seq<int>, b: seq<int>, rs1: real, rs2: real,
                                       tc: real)
    requires a == Sort(s1) && b == Sort(s2) && Total(a, b, rs1, rs2, tc)
    ensures Total(s1, s2, rs1, rs2, tc)
  {
    PairsSorted(s1, s2);
    PairsSorted(s2, s1);
    forall kind
      ensures Sum(kind, a, b, a) == Sum(kind, s1, s2, s1) && Sum(kind, b, a, b) == Sum(kind, s2, s1, s2)
    {
      SumSorted(kind, s1, s2);
      SumSorted(kind, s2, s1);
    }
  }

  /**
   * The rank sums are right if and only if no sum of tied ranks wraps, the tie term if and
   * only if no tie degree is too large.
   */
  lemma {:induction false} TotalRightIff(a: seq<int>, b: seq<int>, rs1: real, rs2: real, tc: real)
    requires Total(a, b, rs1, rs2, tc)
    ensures SumIs(|a|, rs1, Pairs(b, a), 0.0) <==> RanksFit(a, b)
    ensures SumIs(|b|, rs2, Pairs(a, b), 0.0) <==> RanksFit(a, b)
    ensures tc == TieTerm(a, b) <==> DegreesFit(a, b)
  {
    LossesIff(a, b);
    LossesIff(b, a);
    FitsSwap(a, b);
  }

  /** The rank sums of both samples and the tie correction. */
  method RankSums(sample1: seq<int>, sample2: seq<int>) returns (rs1: real, rs2: real, tc: real)
    requires sample1 != [] && sample2 != []
    ensures Total(sample1, sample2, rs1, rs2, tc)
    ensures 2.0 * rs1 == (2 * RankSum(1, |sample1| + 1) + Pairs(sample2, sample1)) as real
            <==> RanksFit(sample1, sample2)
    ensures 2.0 * rs2 == (2 * RankSum(1, |sample2| + 1) + Pairs(sample1, sample2)) as real
            <==> RanksFit(sample1, sample2)
    ensures tc == TieTerm(sample1, sample2) <==> DegreesFit(sample1, sample2)
  {
    var a, b := Sort(sample1), Sort(sample2);
    rs1, rs2, tc := Merge(a, b);
    TotalSorted(sample1, sample2, a, b, rs1, rs2, tc);
    TotalRightIff(sample1, sample2, rs1, rs2, tc);
  }

  lemma {:induction false} PairsSorted(s: seq<int>, t: seq<int>)
    ensures Pairs(Sort(s), Sort(t)) == Pairs(s, t)
  {
    SortedFirst(s, Sort(t));
    SortedSecond(s, t);
  }

  lemma {:induction false} SumSorted(kind: Kind, s: seq<int>, t: seq<int>)
    ensures Sum(kind, Sort(s), Sort(t), Sort(s)) == Sum(kind, s, t, s)
  {
    var a, b := Sort(s), Sort(t);
    forall v
      ensures CountsOf(a, b, v) == CountsOf(s, t, v)
    {
      SortCounts(s, v);
      SortCounts(t, v);
    }
    SumOver(kind, s, t, a, b, a);
    SumSort(kind, s, t, s);
  }

  lemma {:induction false} SumOver(kind: Kind, s: seq<int>, t: seq<int>, a: seq<int>, b: seq<int>, vs: seq<int>)
    requires forall v :: CountsOf(a, b, v) == CountsOf(s, t, v)
    ensures Sum(kind, a, b, vs) == Sum(kind, s, t, vs)
  {
    if vs != [] { SumOver(kind, s, t, a, b, vs[..|vs| - 1]); }
  }

  lemma {:induction false} SumInsert(kind: Kind, s: seq<int>, t: seq<int>, vs: seq<int>, x: int)
    ensures Sum(kind, s, t, Insert(vs, x)) == Sum(kind, s, t, vs) + CountsOf(s, t, x).Each(kind)
  {
    var r := Insert(vs, x);
    if vs == [] || vs[|vs| - 1] <= x {
      assert r[..|r| - 1] == vs;
    } else {
      SumInsert(kind, s, t, vs[..|vs| - 1], x);
      assert r[..|r| - 1] == Insert(vs[..|vs| - 1], x);
    }
  }

  lemma {:induction false} SumSort(kind: Kind, s: seq<int>, t: seq<int>, vs: seq<int>)
    ensures Sum(kind, s, t, Sort(vs)) == Sum(kind, s, t, vs)
  {
    if vs != [] {
      SumSort(kind, s, t, vs[..|vs| - 1]);
      SumInsert(kind, s, t, Sort(vs[..|vs| - 1]), vs[|vs| - 1]);
    }
  }

  lemma {:induction false} RanksSplit(n1: nat, n2: nat, pairs: nat)
    requires pairs == n1 * n2
    ensures RankSum(1, n1 + n2 + 1) == RankSum(1, n1 + 1) + RankSum(1, n2 + 1) + pairs
  {
    if n2 > 0 {
      TimesNext(n1, n2 - 1, pairs);
      RanksSplit(n1, n2 - 1, pairs - n1);
    }
  }

  /** All rank sums together are the sum of the ranks 1 to n, exactly if no sum of tied ranks wraps. */
  lemma {:induction false} RankSumsTotal(a: seq<int>, b: seq<int>, rs1: real, rs2: real, tc: real)
    requires Total(a, b, rs1, rs2, tc)
    ensures rs1 + rs2 == RankSum(1, |a| + |b| + 1) as real <==> RanksFit(a, b)
  {
    var pairs := PairsTotal(a, b);
    LossesIff(a, b);
    LossesIff(b, a);
    FitsSwap(a, b);
    SumsAdd(RankSum(1, |a| + 1), RankSum(1, |b| + 1), Pairs(b, a), Pairs(a, b), pairs, rs1, rs2,
            Sum(RankLosses, a, b, a), Sum(RankLosses, b, a, b));
  }

  lemma PairsTotal(a: seq<int>, b: seq<int>) returns (pairs: nat)
    ensures Pairs(b, a) + Pairs(a, b) == 2 * pairs
    ensures RankSum(1, |a| + |b| + 1) == RankSum(1, |a| + 1) + RankSum(1, |b| + 1) + pairs
  {
    pairs := |a| * |b|;
    PairsComplement(a, b, pairs);
    RanksSplit(|a|, |b|, pairs);
  }

  lemma SumsAdd(ranks1: nat, ranks2: nat, pairs1: nat, pairs2: nat, pairs: nat, rs1: real, rs2: real, lost1: real,
                lost2: real)
    requires pairs1 + pairs2 == 2 * pairs
    requires 2.0 * rs1 == (2 * ranks1 + pairs1) as real - 2.0 * lost1
    requires 2.0 * rs2 == (2 * ranks2 + pairs2) as real - 2.0 * lost2
    ensures rs1 + rs2 == (ranks1 + ranks2 + pairs) as real - lost1 - lost2
  {
  }

  // ---------------------------------------------------------------- the statistic and its variance

  /** Twice the deviation of the second rank sum from its expectation. */
  function TwiceDeviation(s: seq<int>, t: seq<int>): int {
    Pairs(s, t) - |s| * |t|
  }

  predicate Separated(s: seq<int>, t: seq<int>) {
    forall j :: 0 <= j < |t| ==> AllBelow(s, t[j])
  }

  lemma {:induction false} PassedFully(s: seq<int>, v: int)
    ensures Passed(s, v) <= 2 * |s|
    ensures Passed(s, v) == 2 * |s| <==> AllBelow(s, v)
  {
    if s != [] {
      var m := |s| - 1;
      PassedFully(s[..m], v);
      assert AllBelow(s, v) <==> AllBelow(s[..m], v) && s[m] < v by {
        if AllBelow(s[..m], v) && s[m] < v {
          forall j | 0 <= j < |s| ensures s[j] < v { if j < m { assert s[j] == s[..m][j]; } }
        }
      }
    }
  }

  lemma SeparatedSplits(s: seq<int>, t: seq<int>, m: nat)
    requires |t| == m + 1
    ensures Separated(s, t) <==> Separated(s, t[..m]) && AllBelow(s, t[m])
  {
    if Separated(s, t[..m]) && AllBelow(s, t[m]) {
      forall j | 0 <= j < |t|
        ensures AllBelow(s, t[j])
      {
        if j < m { assert t[j] == t[..m][j]; }
      }
    }
  }

  lemma {:induction false} PairsFull(s: seq<int>, t: seq<int>, pairs: nat)
    requires pairs == |s| * |t|
    ensures Pairs(s, t) == 2 * pairs <==> Separated(s, t)
  {
    if t != [] {
      var m := |t| - 1;
      TimesNext(|s|, m, pairs);
      PairsFull(s, t[..m], pairs - |s|);
      PairsComplement(s, t[..m], pairs - |s|);
      PassedFully(s, t[m]);
      SeparatedSplits(s, t, m);
    }
  }

  /** Swapping the samples negates the deviation; it is bounded, and largest exactly for separated samples. */
  lemma DeviationLaws(s: seq<int>, t: seq<int>)
    ensures TwiceDeviation(t, s) == -TwiceDeviation(s, t)
    ensures -(|s| * |t|) <= TwiceDeviation(s, t) <= |s| * |t|
    ensures TwiceDeviation(s, t) == |s| * |t| <==> Separated(s, t)
    ensures TwiceDeviation(s, t) == -(|s| * |t|) <==> Separated(t, s)
  {
    var n := |s| * |t|;
    assert |t| * |s| == n;
    PairsComplement(s, t, n);
    PairsFull(s, t, n);
    PairsFull(t, s, n);
  }

  lemma {:induction false} TiesBounded(s: seq<int>, t: seq<int>, vs: seq<int>, most: nat)
    requires most == (|s| + |t|) * (|s| + |t|) - 1
    ensures Sum(TieShares, s, t, vs) <= Portion(|vs|, most as real)
  {
    if vs != [] {
      TiesBounded(s, t, vs[..|vs| - 1], most);
      ShareBounded(s, t, vs[|vs| - 1], most);
    }
  }

  lemma ShareBounded(s: seq<int>, t: seq<int>, v: int, most: nat)
    requires most == (|s| + |t|) * (|s| + |t|) - 1
    ensures CountsOf(s, t, v).Each(TieShares) <= most as real
  {
    var degree := Equal(s, v) + Equal(t, v);
    EqualBounded(s, v);
    EqualBounded(t, v);
    if degree > 0 {
      ProductFits(degree, degree, |s| + |t|, |s| + |t|);
      SharePart(degree, degree * degree);
    }
  }

  /** One occurrence's part of degree^3 - degree. */
  lemma SharePart(degree: nat, square: nat)
    requires degree > 0 && square == degree * degree
    ensures TieShare(degree) as real / degree as real == (square - 1) as real
  {
    assert TieShare(degree) == (square - 1) * degree;
    QuotientIs(TieShare(degree) as real, degree as real, (square - 1) as real);
  }

  lemma {:induction false} EqualBounded(s: seq<int>, v: int)
    ensures Equal(s, v) <= |s|
  {
    if s != [] { EqualBounded(s[..|s| - 1], v); }
  }

  lemma CubeSplits(x: nat, y: nat, most: nat)
    requires 0 < x + y && most == (x + y) * (x + y) - 1
    ensures Portion(x, most as real) + Portion(y, most as real) == ((x + y) * (x + y) * (x + y) - (x + y)) as real
  {
    PortionsJoin(x, y, most as real);
    PortionIs(x + y, most as real);
    assert (x + y) * most == (x + y) * (x + y) * (x + y) - (x + y);
  }

  lemma TieTermBounded(s: seq<int>, t: seq<int>)
    requires s != [] && t != []
    ensures var n := |s| + |t|;
            TieTerm(s, t) <= (n * n * n - n) as real
  {
    var n := |s| + |t|;
    Mono(1, n, n);
    var most := n * n - 1;
    TiesBounded(s, t, s, most);
    TiesBounded(t, s, t, most);
    CubeSplits(|s|, |t|, most);
  }

  /** The unsigned products of the closing formulas. */
  function RanksProduct(n1: nat, n2: nat): nat { n2 * (n1 + n2 + 1) }

  function PairsProduct(n1: nat, n2: nat): nat { n1 * n2 * (n1 + n2 + 1) }

  function DegreesProduct(n1: nat, n2: nat): (p: nat)
    requires 0 < n1 && 0 < n2
    ensures p > 0
  {
    var n := n1 + n2;
    assert n * (n - 1) >= 1;
    12 * n * (n - 1)
  }

  /** The number under the square root. */
  function Radicand(n1: nat, n2: nat, tc: real): real
    requires 0 < n1 && 0 < n2
  {
    PairsProduct(n1, n2) as real / 12.0 - tc / DegreesProduct(n1, n2) as real
  }

  lemma TieQuotient(n: nat, tc: real)
    requires 2 <= n && tc <= (n * n * n - n) as real
    ensures var d := 12 * n * (n - 1);
            d > 0 && tc / d as real <= (n + 1) as real / 12.0
  {
  }

  /** It is never negative, and zero only for two samples of one and the same value. */
  lemma RadicandNonNegative(s: seq<int>, t: seq<int>)
    requires s != [] && t != []
    ensures Radicand(|s|, |t|, TieTerm(s, t)) >= 0.0
    ensures Radicand(|s|, |t|, TieTerm(s, t)) == 0.0 <==> |s| == |t| == 1 && s[0] == t[0]
  {
    var n1, n2, n := |s|, |t|, |s| + |t|;
    var tc := TieTerm(s, t);
    TieTermBounded(s, t);
    TieQuotient(n, tc);
    var pairs := n1 * n2;
    assert pairs >= 1;
    if pairs == 1 {
      UnitProduct(n1, n2);
      SingleTies(s, t);
    } else {
      assert pairs * (n + 1) >= 2 * (n + 1) by { Mono(2, pairs, n + 1); }
    }
  }

  lemma UnitProduct(x: nat, y: nat)
    requires x * y == 1
    ensures x == 1 && y == 1
  {
  }

  lemma SingleTies(s: seq<int>, t: seq<int>)
    requires |s| == |t| == 1
    ensures TieTerm(s, t) == if s[0] == t[0] then 6.0 else 0.0
  {
    SingleSum(s, t);
    SingleSum(t, s);
  }

  lemma {:induction false} SingleSum(s: seq<int>, t: seq<int>)
    requires |s| == |t| == 1
    ensures Sum(TieShares, s, t, s) == if s[0] == t[0] then 3.0 else 0.0
  {
    SingleEqual(s, s[0]);
    SingleEqual(t, s[0]);
    var c := CountsOf(s, t, s[0]);
    SharePart(2, 4);
    assert c.Each(TieShares) == if s[0] == t[0] then 3.0 else 0.0;
    SumSpan(TieShares, s, t, s, 0, 1, c.Each(TieShares));
    assert s[..1] == s && s[..0] == [];
    assert Portion(1, c.Each(TieShares)) == Portion(0, c.Each(TieShares)) + c.Each(TieShares);
  }

  lemma {:induction false} SingleEqual(s: seq<int>, v: int)
    requires |s| == 1
    ensures Equal(s, v) == if s[0] == v then 1 else 0
  {
    assert s[..0] == [];
  }

  // ---------------------------------------------------------------- the test

  lemma {:induction false} CountBounded(s: seq<int>, v: int)
    ensures Less(s, v) + Equal(s, v) <= |s|
  {
    if s != [] { CountBounded(s[..|s| - 1], v); }
  }

  /** The sizes alone are enough: the ranks of all observations, or the cube of their number. */
  lemma {:induction false} SizesSuffice(s: seq<int>, t: seq<int>, n: nat)
    requires n == |s| + |t|
    ensures RankSum(1, n + 1) < U32 ==> RanksFit(s, t)
    ensures n * n * n < U32 ==> DegreesFit(s, t)
  {
    forall v
      ensures RankSum(1, n + 1) < U32 ==> CountsOf(s, t, v).Ranks() < U32
      ensures n * n * n < U32 ==> CountsOf(s, t, v).Share() < U32
    {
      CountBounded(s, v);
      CountBounded(t, v);
      CountsFit(CountsOf(s, t, v), n);
    }
  }

  lemma {:induction false} CountsFit(c: Counts, n: nat)
    requires c.below1 + c.equal1 + c.below2 + c.equal2 <= n
    ensures RankSum(1, n + 1) < U32 ==> c.Ranks() < U32
    ensures n * n * n < U32 ==> c.Share() < U32
  {
    var below, degree := c.below1 + c.below2, c.equal1 + c.equal2;
    if degree > 0 {
      RankSumFits(below + 1, below + degree + 1, n);
      CubeFits(degree, n);
    }
  }

  /** Up to 65534 observations the deviation is right. */
  lemma RanksSuffice(s: seq<int>, t: seq<int>, n: nat)
    requires n == |s| + |t| && n < 65535
    ensures RanksFit(s, t) && |t| * (n + 1) < U32
  {
    Gauss(1, n + 1);
    ProductFits(n, n + 1, 65535, 65535);
    ProductFits(|t|, n + 1, 65535, 65535);
    SizesSuffice(s, t, n);
  }

  lemma ProductFits(x: nat, y: nat, xMost: nat, yMost: nat)
    requires x <= xMost && y <= yMost
    ensures x * y <= xMost * yMost
    ensures 0 < x && 0 < y ==> 0 < x * y
  {
  }

  /**
   * wmw_test up to the distribution function: the deviation and the square of sigma. The
   * first ensures is about every input; then each result is right exactly while no tied
   * group wraps, as long as the products of the sizes do not.
   */
  method WmwTest(sample1: seq<int>, sample2: seq<int>) returns (d: real, variance: real)
    requires sample1 != [] && sample2 != []
    ensures 2.0 * d == (TwiceDeviation(sample1, sample2) + Wrapped(RanksProduct(|sample1|, |sample2|))) as real
                       - 2.0 * Sum(RankLosses, sample2, sample1, sample2)
    ensures RanksProduct(|sample1|, |sample2|) < U32 ==>
              (2.0 * d == TwiceDeviation(sample1, sample2) as real <==> RanksFit(sample1, sample2))
    ensures PairsProduct(|sample1|, |sample2|) < U32 && DegreesProduct(|sample1|, |sample2|) < U32 ==>
              (variance == Radicand(|sample1|, |sample2|, TieTerm(sample1, sample2)) <==> DegreesFit(sample1, sample2))
  {
    var n1, n2 := |sample1|, |sample2|;
    var rs1, rs2, tc := RankSums(sample1, sample2);
    var ranks, pairs, degrees := RanksProduct(n1, n2), PairsProduct(n1, n2), DegreesProduct(n1, n2);
    d, variance := Evaluate(rs2, tc, ranks, pairs, degrees);
    DeviationIs(n1, n2, Pairs(sample1, sample2), Sum(RankLosses, sample2, sample1, sample2), rs2, d, ranks);
    QuotientsDiffer(tc, TieTerm(sample1, sample2), degrees as real);
  }

  lemma DeviationIs(n1: nat, n2: nat, pairs: nat, lost: real, rs2: real, d: real, ranks: nat)
    requires SumIs(n2, rs2, pairs, lost)
    requires 2.0 * d == 2.0 * rs2 - (ranks % U32) as real && ranks == RanksProduct(n1, n2)
    ensures 2.0 * d == (pairs - n1 * n2 + Wrapped(ranks)) as real - 2.0 * lost
  {
    Expectation(n1, n2, ranks);
  }

  lemma QuotientsDiffer(x: real, y: real, d: real)
    requires d > 0.0
    ensures x / d == y / d <==> x == y
  {
    if x / d == y / d { Cancels(1.0 / d, x, y); }
  }

  /** The two closing formulas; the unsigned products wrap before they are converted. */
  method Evaluate(rs2: real, tc: real, ranks: nat, pairs: nat, degrees: nat) returns (d: real, variance: real)
    ensures 2.0 * d == 2.0 * rs2 - (ranks % U32) as real
    ensures pairs < U32 && 0 < degrees < U32 ==> variance == pairs as real / 12.0 - tc / degrees as real
  {
    d := rs2 - (ranks % U32) as real / 2.0;
    var divisor := degrees % U32;
    // the source divides by zero when the divisor wraps to it
    variance := (pairs % U32) as real / 12.0 - if divisor == 0 then 0.0 else tc / divisor as real;
  }

  lemma {:induction false} Expectation(n1: nat, n2: nat, ranks: nat)
    requires ranks == n2 * (n1 + n2 + 1)
    ensures ranks == 2 * RankSum(1, n2 + 1) + n1 * n2
  {
    Gauss(1, n2 + 1);
    assert ranks == n2 * (n2 + 1) + n1 * n2;
  }

  // ---------------------------------------------------------------- inputs that wrap

  predicate Constant(s: seq<int>, v: int) {
    forall i :: 0 <= i < |s| ==> s[i] == v
  }

  lemma {:induction false} ConstantCounts(s: seq<int>, v: int)
    requires Constant(s, v)
    ensures Less(s, v) == 0 && Equal(s, v) == |s|
  {
    if s != [] { ConstantCounts(s[..|s| - 1], v); }
  }

  /** Two samples of one and the same value: all ranks are tied. */
  lemma {:induction false} ConstantAmount(s: seq<int>, t: seq<int>, v: int)
    requires Constant(s, v) && Constant(t, v) && s != [] && t != []
    ensures CountsOf(s, t, v) == Counts(0, |s|, 0, |t|)
    ensures CountsOf(s, t, v).Ranks() == RankSum(1, |s| + |t| + 1)
  {
    ConstantCounts(s, v);
    ConstantCounts(t, v);
  }

  /** Their rank sums are wrong from 92682 observations on. */
  lemma ConstantWraps(s: seq<int>, t: seq<int>, v: int)
    requires Constant(s, v) && Constant(t, v) && s != [] && t != []
    ensures RanksFit(s, t) <==> |s| + |t| < 92682
  {
    var n := |s| + |t|;
    ConstantAmount(s, t, v);
    Gauss(1, n + 1);
    if n < 92682 {
      ProductFits(n, n + 1, 92681, 92682);
      SizesSuffice(s, t, n);
    } else {
      ProductFits(92682, 92683, n, n + 1);
    }
  }

  /**
   * For two constant samples of the same size the rank sums and their expectation wrap
   * alike: however wrong the rank sums are, the deviation is right.
   */
  lemma {:induction false} WrapsCancel(s: seq<int>, t: seq<int>, v: int)
    requires Constant(s, v) && Constant(t, v) && |s| == |t| > 0
    ensures 2.0 * Sum(RankLosses, t, s, t) == Wrapped(RanksProduct(|s|, |t|)) as real
  {
    var m := |t|;
    var n := m + m;
    ConstantAmount(t, s, v);
    ConstantSum(t, s, v, CountsOf(t, s, v).Each(RankLosses));
    PartsJoin(m, m, n, Wrapped(RankSum(1, n + 1)), CountsOf(t, s, v).Each(RankLosses));
    EvenSum(m, n);
  }

  lemma {:induction false} ConstantSum(t: seq<int>, s: seq<int>, v: int, part: real)
    requires Constant(t, v) && CountsOf(t, s, v).Each(RankLosses) == part
    ensures Sum(RankLosses, t, s, t) == Portion(|t|, part)
  {
    SumSpan(RankLosses, t, s, t, 0, |t|, part);
    assert t[..|t|] == t && t[..0] == [];
  }

  lemma EvenSum(m: nat, n: nat)
    requires 0 < m && n == m + m
    ensures RankSum(1, n + 1) == RanksProduct(m, m)
  {
    Gauss(1, n + 1);
    assert 2 * RanksProduct(m, m) == n * (n + 1);
  }

  /** A degree of 1626 is the smallest that is too large. */
  lemma {:induction false} DegreesFitIff(s: seq<int>, t: seq<int>)
    ensures DegreesFit(s, t) <==> forall v :: CountsOf(s, t, v).Both() ==> Equal(s, v) + Equal(t, v) < 1626
  {
    forall v
      ensures CountsOf(s, t, v).Share() < U32 <==> (CountsOf(s, t, v).Both() ==> Equal(s, v) + Equal(t, v) < 1626)
    {
      ShareFits(Equal(s, v) + Equal(t, v));
    }
  }

  lemma ShareFits(degree: nat)
    ensures TieShare(degree) < U32 <==> degree < 1626
  {
    CubeFits(degree, degree);
    var square := degree * degree;
    if degree < 1626 {
      ProductFits(degree, degree, 1625, 1625);
      ProductFits(square, degree, 1625 * 1625, 1625);
    } else {
      ProductFits(1626, 1626, degree, degree);
      ProductFits(1626 * 1626 - 1, 1626, square - 1, degree);
      assert degree * degree * degree - degree == (square - 1) * degree;
    }
  }

  /** 92681 equal values against one more of them: no product of the sizes wraps, but the deviation is wrong. */
  lemma DeviationWraps(s: seq<int>, t: seq<int>, v: int)
    requires Constant(s, v) && Constant(t, v) && |s| == 92681 && |t| == 1
    ensures RanksProduct(|s|, |t|) < U32 && !RanksFit(s, t)
  {
    ConstantWraps(s, t, v);
  }
}
