/** The bitmap and the Bloom filter on top of it. The hash function is a parameter. */
module BloomFilters {
  import opened Bytes

  type Key = seq<byte>

  /** The bitmask table. */
  function Mask(k: nat): bv8
    requires k < 8
  {
    match k
    case 0 => 0x01 case 1 => 0x02 case 2 => 0x04 case 3 => 0x08
    case 4 => 0x10 case 5 => 0x20 case 6 => 0x40 case 7 => 0x80
  }

  predicate Has(octet: bv8, k: nat)
    requires k < 8
  {
    octet & Mask(k) != 0
  }

  lemma SetsBit(octet: bv8, mask: bv8, j: nat, k: nat)
    requires k < 8 && j < 8 && mask == Mask(k)
    ensures Has(octet | mask, j) <==> j == k || Has(octet, j)
  {
  }

  lemma NoBits(k: nat)
    requires k < 8
    ensures !Has(0, k)
  {
  }

  /** Setting one bit of an octet sets that bit and no other. */
  lemma SetsOneBit(octet: bv8, k: nat, j: nat)
    requires k < 8 && j < 8
    ensures Has(octet | Mask(k), j) <==> j == k || Has(octet, j)
  {
    match k
    case 0 => SetsBit(octet, 0x01, j, 0);
    case 1 => SetsBit(octet, 0x02, j, 1);
    case 2 => SetsBit(octet, 0x04, j, 2);
    case 3 => SetsBit(octet, 0x08, j, 3);
    case 4 => SetsBit(octet, 0x10, j, 4);
    case 5 => SetsBit(octet, 0x20, j, 5);
    case 6 => SetsBit(octet, 0x40, j, 6);
    case 7 => SetsBit(octet, 0x80, j, 7);
  }

  class Bitmap {
    var bitmap: array<bv8>
    var lenBits: nat

    ghost predicate Valid()
      reads this
    {
      bitmap.Length == (lenBits + 7) / 8
    }

    predicate Bit(index: nat)
      reads this, bitmap
      requires Valid() && index < lenBits
    {
      Has(bitmap[index / 8], index % 8)
    }

    /** The indexes of the bits that are set. */
    ghost function Bits(): set<nat>
      reads this, bitmap
      requires Valid()
    {
      set i: nat | i < lenBits && Bit(i)
    }

    constructor (size: nat)
      ensures Valid() && lenBits == size && Bits() == {} && fresh(bitmap)
    {
      lenBits := size;
      bitmap := new bv8[(size + 7) / 8](_ => 0);
      new;
      NothingSet();
    }

    lemma NothingSet()
      requires Valid() && forall i :: 0 <= i < bitmap.Length ==> bitmap[i] == 0
      ensures Bits() == {}
    {
      forall i: nat | i < lenBits
        ensures !Bit(i)
      {
        NoBits(i % 8);
      }
    }

    method Clear()
      requires Valid()
      modifies bitmap
      ensures Valid() && Bits() == {}
    {
      for i := 0 to bitmap.Length
        invariant forall j :: 0 <= j < i ==> bitmap[j] == 0
      {
        bitmap[i] := 0;
      }
      NothingSet();
    }

    /** Out of range indexes are ignored. */
    method Set(index: nat)
      requires Valid()
      modifies bitmap
      ensures Valid() && Bits() == old(Bits()) + if index < lenBits then {index} else {}
    {
      if index < lenBits {
        bitmap[index / 8] := bitmap[index / 8] | Mask(index % 8);
        forall i: nat | i < lenBits
          ensures Bit(i) <==> i == index || old(Bit(i))
        {
          SetsOneBit(old(bitmap[index / 8]), index % 8, i % 8);
          assert i == index <==> i / 8 == index / 8 && i % 8 == index % 8;
        }
      }
    }

    method Test(index: nat) returns (r: bool)
      requires Valid()
      ensures r <==> index in Bits()
    {
      if index < lenBits {
        r := bitmap[index / 8] & Mask(index % 8) != 0;
      } else {
        r := false;
      }
    }
  }

  /** The seeds of the hash functions, and hashU before it is reduced to the size of the filter. */
  datatype Hashing = Hashing(hashU: (Key, nat) -> nat, seeds: seq<nat>, size: nat) {
    predicate Valid() { size > 0 }

    function Index(key: Key, i: nat): (index: nat)
      requires Valid() && i < |seeds|
      ensures index < size
    {
      hashU(key, seeds[i]) % size
    }

    /** The bits of a key; hash functions may collide. */
    ghost function Indexes(key: Key): set<nat>
      requires Valid()
    {
      IndexesTo(key, |seeds|)
    }

    /** Each hash function gives a key one bit, its hash reduced to the size of the filter. */
    lemma BitsAre(key: Key, b: nat)
      requires Valid()
      ensures b in Indexes(key) <==> exists i :: 0 <= i < |seeds| && b == hashU(key, seeds[i]) % size
    {
      if b in Indexes(key) {
        var i :| 0 <= i < |seeds| && b == Index(key, i);
        assert b == hashU(key, seeds[i]) % size;
      }
      if i :| 0 <= i < |seeds| && b == hashU(key, seeds[i]) % size { assert b == Index(key, i); }
    }

    /** The bits the first n hash functions give. */
    ghost function IndexesTo(key: Key, n: nat): set<nat>
      requires Valid() && n <= |seeds|
    {
      set i | 0 <= i < n :: Index(key, i)
    }

    lemma IndexesNext(key: Key, n: nat)
      requires Valid() && n < |seeds|
      ensures IndexesTo(key, n + 1) == IndexesTo(key, n) + {Index(key, n)}
    {
    }
  }

  class BloomFilter {
    const hashing: Hashing
    const filter: Bitmap

    ghost predicate Valid()
      reads filter
    {
      hashing.Valid() && filter.Valid() && filter.lenBits == hashing.size
    }

    ghost function Bits(): set<nat>
      reads filter, filter.bitmap
      requires Valid()
    {
      filter.Bits()
    }

    constructor (h: Hashing)
      requires h.Valid()
      ensures hashing == h && Valid() && Bits() == {} && fresh(filter) && fresh(filter.bitmap)
    {
      hashing := h;
      filter := new Bitmap(h.size);
    }

    method Clear()
      requires Valid()
      modifies filter.bitmap
      ensures Valid() && Bits() == {}
    {
      filter.Clear();
    }

    method Insert(key: Key)
      requires Valid()
      modifies filter.bitmap
      ensures Valid() && Bits() == old(Bits()) + hashing.Indexes(key)
    {
      for i := 0 to |hashing.seeds|
        invariant Valid() && Bits() == old(Bits()) + hashing.IndexesTo(key, i)
      {
        hashing.IndexesNext(key, i);
        filter.Set(hashing.Index(key, i));
      }
    }

    method Test(key: Key) returns (r: bool)
      requires Valid()
      ensures r <==> hashing.Indexes(key) <= Bits()
    {
      for i := 0 to |hashing.seeds|
        invariant hashing.IndexesTo(key, i) <= Bits()
      {
        hashing.IndexesNext(key, i);
        var isSet := filter.Test(hashing.Index(key, i));
        if !isSet {
          assert hashing.Index(key, i) in hashing.Indexes(key);
          return false;
        }
      }
      return true;
    }

    /** What Test would have answered before, and what Insert would have left behind. */
    method TestBeforeInsert(key: Key) returns (result: bool)
      requires Valid()
      modifies filter.bitmap
      ensures Valid() && Bits() == old(Bits()) + hashing.Indexes(key)
      ensures result <==> hashing.Indexes(key) <= old(Bits())
    {
      result := true;
      for i := 0 to |hashing.seeds|
        invariant Valid() && Bits() == old(Bits()) + hashing.IndexesTo(key, i)
        invariant result <==> hashing.IndexesTo(key, i) <= old(Bits())
      {
        hashing.IndexesNext(key, i);
        var index := hashing.Index(key, i);
        var isSet := filter.Test(index);
        if !isSet {
          result := false;
        }
        filter.Set(index);
      }
    }
  }

  // ---------------------------------------------------------------- runs

  /** The calls made on a filter; testBeforeInsert counts as Inserted. */
  datatype Log = Empty | Inserted(before: Log, key: Key) | Cleared(before: Log)

  ghost function BitsAfter(h: Hashing, log: Log): set<nat>
    requires h.Valid()
  {
    match log
    case Empty => {}
    case Inserted(before, key) => BitsAfter(h, before) + h.Indexes(key)
    case Cleared(_) => {}
  }

  /** The keys inserted since the last clear. */
  function Members(log: Log): set<Key> {
    match log
    case Empty => {}
    case Inserted(before, key) => Members(before) + {key}
    case Cleared(_) => {}
  }

  /** The filter holds exactly the bits of its members, so no member is ever denied. */
  lemma {:induction false} NoFalseNegatives(h: Hashing, log: Log)
    requires h.Valid()
    ensures forall key :: key in Members(log) ==> h.Indexes(key) <= BitsAfter(h, log)
    ensures forall b :: b in BitsAfter(h, log) ==> exists key :: key in Members(log) && b in h.Indexes(key)
  {
    if log.Inserted? {
      NoFalseNegatives(h, log.before);
      assert log.key in Members(log);
    }
  }

  /** A key that is not a member is reported exactly when every one of its bits belongs to a member. */
  lemma {:induction false} FalsePositives(h: Hashing, log: Log, key: Key)
    requires h.Valid()
    ensures h.Indexes(key) <= BitsAfter(h, log)
       <==> forall b :: b in h.Indexes(key) ==> exists member :: member in Members(log) && b in h.Indexes(member)
  {
    NoFalseNegatives(h, log);
  }
}
