/** The Internet checksum (section 4.1 of RFC 1071). Sums are taken in the network's octet order. */
module Checksum {
  import opened Bytes

  const ONES := 0xFFFF

  /** The sum of the 16-bit words, an odd last octet padded with zero. */
  function Words(b: seq<byte>): nat {
    if b == [] then 0
    else if |b| == 1 then 256 * b[0] as nat
    else 256 * b[0] as nat + b[1] as nat + Words(b[2..])
  }

  /** The sum with its carries added back in. */
  function Fold(sum: nat): nat {
    if sum < U16 then sum else Fold(sum % U16 + sum / U16)
  }

  /** Folding is reduction modulo 2^16 - 1 to a number that is zero only for zero. */
  lemma {:induction false} FoldIs(sum: nat)
    ensures Fold(sum) == if sum == 0 then 0 else (sum - 1) % ONES + 1
    decreases sum
  {
    if sum >= U16 {
      FoldIs(sum % U16 + sum / U16);
      var q := sum / U16;
      assert sum - 1 == (sum % U16 + q - 1) + q * ONES;
      AddMultiple(sum % U16 + q - 1, q);
    }
  }

  lemma {:induction false} AddMultiple(x: nat, q: nat)
    ensures (x + q * ONES) % ONES == x % ONES
  {
  }

  /** The value of in_checksum, before its conversion to network order. */
  function Value(b: seq<byte>): (c: nat)
    ensures c < U16
  {
    FoldIs(Words(b));
    ONES - Fold(Words(b))
  }

  /** in_checksum: the words are added up, then the carries are folded in. */
  method InChecksum(buf: seq<byte>) returns (c: nat)
    ensures c == Value(buf)
  {
    var sum: nat, at: nat, count: nat := 0, 0, |buf|;
    assert buf[0..] == buf;
    while count > 1
      invariant at + count == |buf| && sum + Words(buf[at..]) == Words(buf)
    {
      assert buf[at..][2..] == buf[at + 2..];
      sum := sum + 256 * buf[at] as nat + buf[at + 1] as nat;
      at, count := at + 2, count - 2;
    }
    if count > 0 {
      sum := sum + 256 * buf[at] as nat;
    }
    assert sum == Words(buf);
    FoldIs(sum);
    while sum / U16 != 0
      invariant Fold(sum) == Fold(Words(buf))
      decreases sum
    {
      sum := sum % U16 + sum / U16;
    }
    c := ONES - sum;
  }

  lemma {:induction false} WordsSplit(a: seq<byte>, b: seq<byte>)
    requires |a| % 2 == 0
    ensures Words(a + b) == Words(a) + Words(b)
  {
    if a == [] {
      assert a + b == b;
    } else {
      WordsSplit(a[2..], b);
      assert (a + b)[2..] == a[2..] + b;
    }
  }

  /** An odd octet at the end is the high octet of a word. */
  lemma {:induction false} OddPadded(b: seq<byte>)
    requires |b| % 2 == 1
    ensures Words(b) == Words(b + [0])
  {
    if |b| > 1 {
      OddPadded(b[2..]);
      assert (b + [0])[2..] == b[2..] + [0];
    } else {
      assert (b + [0])[2..] == [];
    }
  }

  lemma WordsOfField(n: nat)
    requires n < U16
    ensures Words(Put16(n)) == n
  {
    assert Put16(n)[2..] == [];
  }

  /** A buffer with a checksum field at an even offset. */
  lemma {:induction false} WordsAround(before: seq<byte>, n: nat, after: seq<byte>)
    requires |before| % 2 == 0 && n < U16
    ensures Words(before + (Put16(n) + after)) == Words(before) + n + Words(after)
  {
    WordsSplit(before, Put16(n) + after);
    WordsSplit(Put16(n), after);
    WordsOfField(n);
  }

  /** A sum that is a positive multiple of 2^16 - 1 folds to all ones. */
  lemma {:induction false} FoldsToOnes(sum: nat, q: nat)
    requires 0 < sum == q * ONES
    ensures Fold(sum) == ONES
  {
    FoldIs(sum);
    assert sum - 1 == (ONES - 1) + (q - 1) * ONES;
    AddMultiple(ONES - 1, q - 1);
  }

  /** How far the sum is from the next multiple. */
  lemma Complement(sum: nat) returns (q: nat)
    ensures sum + (ONES - Fold(sum)) == q * ONES
    ensures sum > 0 ==> q > 0
  {
    FoldIs(sum);
    if sum == 0 {
      q := 1;
    } else {
      q := (sum - 1) / ONES + 1;
      assert sum - 1 == (q - 1) * ONES + (sum - 1) % ONES;
      assert q * ONES == (q - 1) * ONES + ONES;
    }
  }

  /** A header whose checksum was filled in checks to zero. */
  lemma FilledInChecks(before: seq<byte>, after: seq<byte>)
    requires |before| % 2 == 0
    ensures Value(before + (Put16(Value(before + (Put16(0) + after))) + after)) == 0
  {
    var blank := before + (Put16(0) + after);
    var c := Value(blank);
    WordsAround(before, 0, after);
    WordsAround(before, c, after);
    var q := Complement(Words(blank));
    if Words(blank) == 0 { assert c == ONES; }
    FoldsToOnes(Words(blank) + c, q);
  }

  // ---------------------------------------------------------------- two sums combined

  /** The checksum over two parts, as the UDP and TCP headers get it. */
  function Combined(u: nat): nat {
    var c := u % U16 + u / U16;
    if c == 0 then 1 else c
  }

  lemma CombinedFits(u: nat)
    requires u <= ONES + ONES
    ensures Combined(u) < U16 && (u > 0 ==> Combined(u) == u - (u / U16) * ONES)
  {
  }

  /** What the two sums p and h and the combination u of their checksums fold to. */
  lemma CombinedFolds(p: nat, h: nat, u: nat)
    requires u == (ONES - Fold(p)) + (ONES - Fold(h)) && Fold(p) <= ONES && Fold(h) <= ONES
    ensures Fold(p + h + Combined(u)) == ONES <==> u != 0
  {
    var q1 := Complement(p);
    var q2 := Complement(h);
    // p + h + u is a multiple of 2^16 - 1
    assert p + h + u == (q1 + q2) * ONES;
    if u == 0 {
      FoldIs(p + h + 1);
      AddMultiple(0, q1 + q2);
    } else {
      CombinedFits(u);
      FoldsToOnes(p + h + Combined(u), q1 + q2 - u / U16);
    }
  }

  lemma {:induction false} WordsTogether(pseudo: seq<byte>, before: seq<byte>, after: seq<byte>, c: nat)
    requires |pseudo| % 2 == 0 && |before| % 2 == 0 && c < U16
    ensures Words(pseudo + (before + (Put16(c) + after))) == Words(pseudo) + Words(before + (Put16(0) + after)) + c
  {
    WordsAround(before, 0, after);
    WordsAround(before, c, after);
    WordsSplit(pseudo, before + (Put16(c) + after));
  }

  /**
   * A pseudo header and a header with its checksum filled in: together they check to zero
   * exactly when u was not zero.
   */
  lemma CombinedChecks(pseudo: seq<byte>, before: seq<byte>, after: seq<byte>, u: nat)
    requires |pseudo| % 2 == 0 && |before| % 2 == 0
    requires u == Value(pseudo) + Value(before + (Put16(0) + after))
    ensures Combined(u) < U16
    ensures Value(pseudo + (before + (Put16(Combined(u)) + after))) == 0 <==> u != 0
  {
    var p, h := Words(pseudo), Words(before + (Put16(0) + after));
    FoldIs(p);
    FoldIs(h);
    CombinedFits(u);
    CombinedFolds(p, h, u);
    WordsTogether(pseudo, before, after, Combined(u));
    FoldIs(p + h + Combined(u));
  }

  /** Zeros behind the data change nothing. */
  lemma {:induction false} ZerosAddNothing(b: seq<byte>, zeros: seq<byte>)
    requires |b| % 2 == 0 && forall i :: 0 <= i < |zeros| ==> zeros[i] == 0
    ensures Value(b + zeros) == Value(b)
  {
    WordsSplit(b, zeros);
    WordsOfZeros(zeros);
  }

  lemma {:induction false} WordsOfZeros(zeros: seq<byte>)
    requires forall i :: 0 <= i < |zeros| ==> zeros[i] == 0
    ensures Words(zeros) == 0
  {
    if |zeros| > 1 { WordsOfZeros(zeros[2..]); }
  }
}
