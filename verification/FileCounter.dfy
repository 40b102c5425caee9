/** Packet numbers as the collector keeps them: counters that wrap at MAX_FILES. */
module FileCounters {
  const MAX_FILES := 100000

  type Count = i: nat | i < MAX_FILES

  /** operator++ */
  function Bump(i: Count): Count {
    if i + 1 == MAX_FILES then 0 else i + 1
  }

  /** operator+ */
  function Plus(a: Count, b: Count): Count {
    if a + b >= MAX_FILES then a + b - MAX_FILES else a + b
  }

  /** operator- */
  function Minus(a: Count, b: Count): Count {
    if a >= b then a - b else MAX_FILES - (b - a)
  }

  /** The counter an unbounded packet number is kept as. */
  function Wrap(n: nat): Count {
    n % MAX_FILES
  }

  lemma BumpWraps(n: nat)
    ensures Bump(Wrap(n)) == Wrap(n + 1)
  {
  }

  /** Subtraction recovers the number of outstanding packets exactly while fewer than MAX_FILES are outstanding. */
  lemma MinusCountsIff(newest: nat, oldest: nat)
    requires oldest <= newest
    ensures Minus(Wrap(newest), Wrap(oldest)) == newest - oldest <==> newest - oldest < MAX_FILES
  {
  }

  lemma MinusUndoesPlus(a: Count, b: Count)
    ensures Minus(Plus(a, b), b) == a && Plus(Minus(a, b), b) == a
  {
  }

  /** Two packet numbers less than MAX_FILES apart are told apart by their counters. */
  lemma WrapTells(a: nat, b: nat)
    requires a <= b < a + MAX_FILES
    ensures Wrap(a) == Wrap(b) <==> a == b
  {
  }

  class FileCounter {
    var i: Count

    constructor (c: Count)
      ensures i == c
    {
      i := c;
    }

    /** Counts on modulo MAX_FILES: from the counter of any packet number to that of the next. */
    method PreIncrement()
      modifies this
      ensures forall n: nat :: old(i) == Wrap(n) ==> i == Wrap(n + 1)
    {
      var next: nat := i + 1;
      if next == MAX_FILES {
        next := 0;
      }
      i := next;
    }

    /** The same, and the result is the counter before. */
    method PostIncrement() returns (before: Count)
      modifies this
      ensures before == old(i) && forall n: nat :: before == Wrap(n) ==> i == Wrap(n + 1)
    {
      before := i;
      var next: nat := i + 1;
      if next == MAX_FILES {
        next := 0;
      }
      i := next;
    }
  }
}
