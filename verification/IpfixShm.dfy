/** The ring's own code: cursors and flag are updated in place over a shared block. */
module IpfixShmStorage {
  import opened Bytes
  import opened PacketRing

  /** memcpy into the block. */
  method Memcpy(a: array<byte>, p: nat, bytes: seq<byte>)
    requires p + |bytes| <= a.Length
    modifies a
    ensures a[..] == Put(old(a[..]), p, bytes)
  {
    for i := 0 to |bytes|
      invariant a[..] == Put(old(a[..]), p, bytes[..i])
    {
      PutNext(old(a[..]), p, bytes, i);
      a[p + i] := bytes[i];
    }
    assert bytes[..|bytes|] == bytes;
  }

  lemma PutNext(m: seq<byte>, p: nat, bytes: seq<byte>, i: nat)
    requires p + |bytes| <= |m| && i < |bytes|
    ensures Put(m, p, bytes[..i + 1]) == Put(m, p, bytes[..i])[p + i := bytes[i]]
  {
  }

  /** bzero from p to the end of the block. */
  method Bzero(a: array<byte>, p: nat)
    requires p <= a.Length
    modifies a
    ensures a[..] == ZeroFrom(old(a[..]), p)
  {
    for i := p to a.Length
      invariant a[..] == old(a[..])[..p] + Zeros(i - p) + old(a[..])[i..]
    {
      a[i] := 0;
    }
  }

  /**
   * One process's view of the shared block.  The collector and every module have
   * an instance of their own; only startLocation is shared between them.
   */
  class IpfixShm {
    var startLocation: array?<byte>
    var writePosition: nat
    var readPosition: nat
    var packetSize: nat
    var writeBeforeRead: bool

    ghost function View(): (r: Ring)
      requires startLocation != null
      reads this, startLocation
    {
      Ring(startLocation[..], writePosition, Cursor(readPosition, packetSize), writeBeforeRead)
    }

    ghost predicate Valid()
      reads this, startLocation
    {
      if startLocation == null then packetSize == 0 else View().InBounds()
    }

    constructor ()
      ensures startLocation == null && !writeBeforeRead && Valid()
    {
      startLocation := null;
      writePosition, readPosition, packetSize, writeBeforeRead := 0, 0, 0, false;
    }

    /** setShmPointer and setShmSize, called once when the process starts. */
    method Attach(block: array<byte>)
      requires Valid() && startLocation == null
      modifies this
      ensures Valid() && startLocation == block
      ensures View() == Ring(block[..], 0, Cursor(0, 0), old(writeBeforeRead))
    {
      startLocation := block;
      writePosition, readPosition := 0, 0;
    }

    /** Length and octets, at the write position. */
    method StoreRecord(data: Packet)
      requires startLocation != null && |data| < U16 && writePosition + 2 + |data| <= startLocation.Length
      modifies startLocation
      ensures startLocation[..] == Put(old(startLocation[..]), writePosition, Host16(|data|) + data)
    {
      ghost var m := startLocation[..];
      Memcpy(startLocation, writePosition, Host16(|data|));
      Memcpy(startLocation, writePosition + 2, data);
      PutTwice(m, writePosition, Host16(|data|), data);
    }

    /** The part of writePacket after the wrap decision. */
    method PlacePacket(data: Packet) returns (ok: bool)
      requires startLocation != null && Valid() && |data| < U16
      requires Overflows(View(), |data|) ==> writeBeforeRead
      modifies this`writePosition, startLocation
      ensures Valid() && View() == Place(old(View()), data).0 && ok == Place(old(View()), data).1
    {
      if writeBeforeRead && writePosition + |data| + 2 > readPosition {
        return false;
      }
      StoreRecord(data);
      writePosition := writePosition + 2 + |data|;
      return true;
    }

    method WritePacket(data: Packet) returns (ok: bool)
      requires Valid() && |data| < U16
      modifies this`writePosition, this`writeBeforeRead, startLocation
      ensures Valid()
      ensures old(startLocation) == null ==>
                !ok && writePosition == old(writePosition) && writeBeforeRead == old(writeBeforeRead)
      ensures startLocation != null ==> View() == Write(old(View()), data).0 && ok == Write(old(View()), data).1
    {
      if |data| == 0 {
        return false;
      }
      if startLocation == null {
        return false;
      }
      if |data| > startLocation.Length {
        return false;
      }
      if writePosition + |data| + 2 >= startLocation.Length {
        Bzero(startLocation, writePosition);
        if readPosition >= writePosition {
          return false;
        }
        writeBeforeRead := true;
        writePosition := 0;
      }
      ghost var placing := View();
      assert Write(old(View()), data) == Place(placing, data);
      ok := PlacePacket(data);
    }

    /** readPacket: data is where the packet's octets start, size how many there are. */
    method ReadPacket() returns (data: nat, size: nat)
      requires startLocation != null && Valid() && 2 <= startLocation.Length
      modifies this`readPosition, this`packetSize, this`writeBeforeRead
      ensures View() == Proceed(old(View()))
      ensures data == readPosition && size == packetSize
    {
      ghost var r, short := View(), 2 > startLocation.Length - (readPosition + packetSize);
      var block := startLocation[..];
      readPosition := readPosition + packetSize;
      if 2 > startLocation.Length - readPosition {
        writeBeforeRead := false;
        readPosition := 0;
      }
      packetSize := GetHost16(block, readPosition);
      ghost var p, first := readPosition, packetSize;
      readPosition := readPosition + 2;
      if packetSize == 0 {
        writeBeforeRead := false;
        readPosition := 0;
        packetSize := GetHost16(block, readPosition);
        readPosition := readPosition + 2;
      }
      ReadIs(r, short, p, first, Cursor(readPosition, packetSize), writeBeforeRead);
      assert startLocation[..] == block;
      return readPosition, packetSize;
    }
  }

  /** What readPacket leaves, as the two tests of the source decide. */
  lemma ReadIs(r: Ring, short: bool, p: nat, first: nat, c: Cursor, flag: bool)
    requires r.InBounds() && 2 <= |r.mem| && (short <==> |r.mem| - r.reader.Next() < 2)
    requires p == (if short then 0 else r.reader.Next()) && first == GetHost16(r.mem, p)
    requires first == 0 ==> c == Cursor(2, GetHost16(r.mem, 0)) && !flag
    requires first != 0 ==> c == Cursor(p + 2, first) && flag == (r.writeBeforeRead && !short)
    ensures Proceed(r) == r.(reader := c, writeBeforeRead := flag)
  {
  }

  lemma PutTwice(m: seq<byte>, p: nat, a: seq<byte>, b: seq<byte>)
    requires p + |a| + |b| <= |m|
    ensures Put(Put(m, p, a), p + |a|, b) == Put(m, p, a + b)
  {
  }
}
