/**
 * The shared-memory byte ring (IpfixShm): one writer that wraps with a zero
 * marker, the collector's read cursor, and one further cursor per detection
 * module over the same memory.
 *
 * Positions are offsets from startLocation.  A packet is stored as its
 * two-octet length followed by its octets.
 */
module PacketRing {
  import opened Bytes

  type Packet = seq<byte>

  /** readPosition and packetSize: the packet handed out last. */
  datatype Cursor = Cursor(pos: nat, packetSize: nat) {
    /** Where the next packet is looked for. */
    function Next(): nat { pos + packetSize }
  }

  datatype Ring = Ring(mem: seq<byte>, wp: nat, reader: Cursor, writeBeforeRead: bool) {
    predicate InBounds() {
      wp <= |mem| && reader.Next() <= |mem|
    }
  }

  // ---------------------------------------------------------------- operations

  function ZeroFrom(m: seq<byte>, p: nat): (r: seq<byte>)
    requires p <= |m|
    ensures |r| == |m|
  {
    m[..p] + Zeros(|m| - p)
  }

  function Put(m: seq<byte>, p: nat, bytes: seq<byte>): (r: seq<byte>)
    requires p + |bytes| <= |m|
    ensures |r| == |m|
  {
    m[..p] + bytes + m[p + |bytes|..]
  }

  predicate Overflows(r: Ring, len: nat) {
    r.wp + len + 2 >= |r.mem|
  }

  /** The part of writePacket after the wrap decision. */
  function Place(r: Ring, data: Packet): (Ring, bool)
    requires r.InBounds() && |data| < U16
    requires Overflows(r, |data|) ==> r.writeBeforeRead
  {
    if r.writeBeforeRead && r.wp + |data| + 2 > r.reader.pos then (r, false)
    else (r.(mem := Put(r.mem, r.wp, Host16(|data|) + data), wp := r.wp + 2 + |data|), true)
  }

  /** writePacket on an allocated block: the new state and whether the packet was stored. */
  function Write(r: Ring, data: Packet): (Ring, bool)
    requires r.InBounds() && |data| < U16
  {
    if |data| == 0 || |data| > |r.mem| then (r, false)
    else if Overflows(r, |data|) then
      var z := r.(mem := ZeroFrom(r.mem, r.wp));
      if r.reader.pos >= r.wp then (z, false)
      else Place(z.(writeBeforeRead := true, wp := 0), data)
    else Place(r, data)
  }

  /** readPacket: the advanced cursor and whether it jumped back to the start. */
  function Advance(m: seq<byte>, c: Cursor): (Cursor, bool)
    requires 2 <= |m| && c.Next() <= |m|
  {
    var short := |m| - c.Next() < 2;
    var p := if short then 0 else c.Next();
    var size := GetHost16(m, p);
    if size == 0 then (Cursor(2, GetHost16(m, 0)), true) else (Cursor(p + 2, size), short)
  }

  /** The octets a caller of readPacket is pointed at. */
  function Handed(m: seq<byte>, c: Cursor): Packet {
    if c.Next() <= |m| then m[c.pos..c.Next()] else []
  }

  /** proceedOnePacket: the collector's own read, which owns the writeBeforeRead flag. */
  function Proceed(r: Ring): Ring
    requires 2 <= |r.mem| && r.InBounds()
  {
    var (c, wrapped) := Advance(r.mem, r.reader);
    r.(reader := c, writeBeforeRead := r.writeBeforeRead && !wrapped)
  }

  // ---------------------------------------------------------------- layout

  ghost predicate RecordAt(m: seq<byte>, p: nat, d: Packet) {
    0 < |d| < U16 && p + 2 + |d| <= |m| && m[p..p + 2 + |d|] == Host16(|d|) + d
  }

  /** The packets q lie back to back from p to e. */
  ghost predicate Chain(m: seq<byte>, p: nat, q: seq<Packet>, e: nat)
    decreases |q|
  {
    if q == [] then p == e
    else RecordAt(m, p, q[0]) && Chain(m, p + 2 + |q[0]|, q[1..], e)
  }

  ghost predicate Marked(m: seq<byte>, w: nat) {
    w <= |m| && forall i :: w <= i < |m| ==> m[i] == 0
  }

  /**
   * What the unread packets look like in memory: `before` lies between the
   * reader and the wrap point w, `after` at the start of the block.
   */
  ghost predicate Layout(r: Ring, before: seq<Packet>, after: seq<Packet>, w: nat) {
    && r.InBounds()
    && Chain(r.mem, r.reader.Next(), before, w)
    && if r.writeBeforeRead then
      && Marked(r.mem, w)
      && Chain(r.mem, 0, after, r.wp)
      && r.wp <= r.reader.pos
    else
      && after == [] && w == r.wp
      && (r.reader.pos < r.wp || r.wp == 0)
  }

  /** The ring holds exactly the unread packets q, in order. */
  ghost predicate Holds(r: Ring, q: seq<Packet>) {
    exists before, after, w :: q == before + after && Layout(r, before, after, w)
  }

  /** The next packet to read lies beyond the wrap, if there is one at all. */
  predicate AtMark(r: Ring)
    requires r.InBounds()
  {
    var p := r.reader.Next();
    |r.mem| - p < 2 || GetHost16(r.mem, p) == 0
  }

  /** The write would run the zero fill of packetstats.cpp:113 over unread packets. */
  predicate Wipes(r: Ring, data: Packet)
    requires r.InBounds()
  {
    && 0 < |data| <= |r.mem|
    && Overflows(r, |data|)
    && r.writeBeforeRead
    && !AtMark(r)
  }

  // ---------------------------------------------------------------- chains

  lemma {:induction false} ChainEnd(m: seq<byte>, p: nat, q: seq<Packet>, e: nat)
    requires Chain(m, p, q, e)
    ensures p + 3 * |q| <= e
    ensures q != [] ==> e <= |m|
    decreases |q|
  {
    if q != [] { ChainEnd(m, p + 2 + |q[0]|, q[1..], e); }
  }

  lemma {:induction false} ChainFrame(m: seq<byte>, m': seq<byte>, p: nat, q: seq<Packet>, e: nat)
    requires Chain(m, p, q, e) && |m| == |m'|
    requires p <= |m| && e <= |m| && forall i :: p <= i < e ==> m[i] == m'[i]
    ensures Chain(m', p, q, e)
    decreases |q|
  {
    if q != [] {
      var n := p + 2 + |q[0]|;
      ChainEnd(m, n, q[1..], e);
      assert m[p..n] == m'[p..n];
      ChainFrame(m, m', n, q[1..], e);
    }
  }

  lemma {:induction false} ChainAppend(m: seq<byte>, p: nat, q: seq<Packet>, e: nat, d: Packet)
    requires Chain(m, p, q, e) && RecordAt(m, e, d)
    ensures Chain(m, p, q + [d], e + 2 + |d|)
    decreases |q|
  {
    if q == [] {
      assert (q + [d])[1..] == [];
    } else {
      ChainAppend(m, p + 2 + |q[0]|, q[1..], e, d);
      assert (q + [d])[1..] == q[1..] + [d];
    }
  }

  lemma RecordHead(m: seq<byte>, p: nat, d: Packet)
    requires RecordAt(m, p, d)
    ensures GetHost16(m, p) == |d| && m[p + 2..p + 2 + |d|] == d
  {
    var s := m[p..p + 2 + |d|];
    assert m[p..p + 2] == s[..2] == Host16(|d|);
    GetPutHost16(m, p, |d|);
    assert m[p + 2..p + 2 + |d|] == s[2..] == d;
  }

  /** Memory between two points spells at most one packet sequence. */
  lemma {:induction false} ChainUnique(m: seq<byte>, p: nat, q: seq<Packet>, q': seq<Packet>, e: nat)
    requires Chain(m, p, q, e) && Chain(m, p, q', e)
    ensures q == q'
    decreases |q|
  {
    if q == [] {
      ChainEnd(m, p, q', e);
    } else {
      ChainEnd(m, p, q, e);
      assert q' != [];
      RecordHead(m, p, q[0]);
      RecordHead(m, p, q'[0]);
      ChainUnique(m, p + 2 + |q[0]|, q[1..], q'[1..], e);
      assert q == [q[0]] + q[1..] && q' == [q'[0]] + q'[1..];
    }
  }

  // ---------------------------------------------------------------- one step

  /** Cursor c has read the first k unread packets of the collector. */
  ghost predicate Ahead(r: Ring, before: seq<Packet>, after: seq<Packet>, w: nat, c: Cursor, k: nat) {
    && c.Next() <= |r.mem|
    && k <= |before| + |after|
    && if k <= |before| then
      && Chain(r.mem, r.reader.Next(), before[..k], c.Next())
      && Chain(r.mem, c.Next(), before[k..], w)
    else
      var j := k - |before|;
      && Chain(r.mem, 0, after[..j], c.Next())
      && Chain(r.mem, c.Next(), after[j..], r.wp)
  }

  /** Reading a record that is really there, at p. */
  lemma AdvanceTo(m: seq<byte>, c: Cursor, p: nat, d: Packet)
    requires c.Next() <= |m| && RecordAt(m, p, d)
    requires p == c.Next() || (p == 0 && Marked(m, c.Next()))
    ensures 2 <= |m|
    ensures Advance(m, c).0 == Cursor(p + 2, |d|)
    ensures Handed(m, Advance(m, c).0) == d
    ensures p != 0 || c.Next() != 0 ==> Advance(m, c).1 == (p != c.Next())
  {
    RecordHead(m, p, d);
    if p != c.Next() && |m| - c.Next() >= 2 {
      assert m[c.Next()] == 0 && m[c.Next() + 1] == 0;
    }
  }

  /** A read of a packet that lies before the wrap point. */
  lemma ReadsBefore(r: Ring, before: seq<Packet>, after: seq<Packet>, w: nat, c: Cursor, k: nat)
    requires Layout(r, before, after, w) && Ahead(r, before, after, w, c, k) && k < |before|
    ensures 2 <= |r.mem| && Handed(r.mem, Advance(r.mem, c).0) == before[k]
    ensures Ahead(r, before, after, w, Advance(r.mem, c).0, k + 1)
  {
    var d := before[k];
    assert before[k..][0] == d && before[k..][1..] == before[k + 1..];
    AdvanceTo(r.mem, c, c.Next(), d);
    ChainAppend(r.mem, r.reader.Next(), before[..k], c.Next(), d);
    assert before[..k] + [d] == before[..k + 1];
  }

  /** A read of the packet at the start of the block, which wraps. */
  lemma ReadsFirstAfter(r: Ring, before: seq<Packet>, after: seq<Packet>, w: nat, c: Cursor)
    requires Layout(r, before, after, w) && Ahead(r, before, after, w, c, |before|) && after != []
    ensures 2 <= |r.mem| && Handed(r.mem, Advance(r.mem, c).0) == after[0]
    ensures Ahead(r, before, after, w, Advance(r.mem, c).0, |before| + 1)
  {
    var d := after[0];
    assert before[|before|..] == [] && c.Next() == w;
    assert after[..1] == [d] && [d][1..] == [];
    AdvanceTo(r.mem, c, 0, d);
  }

  /** A read of a packet behind it. */
  lemma ReadsNextAfter(r: Ring, before: seq<Packet>, after: seq<Packet>, w: nat, c: Cursor, j: nat)
    requires Layout(r, before, after, w) && Ahead(r, before, after, w, c, |before| + j) && 0 < j < |after|
    ensures 2 <= |r.mem| && Handed(r.mem, Advance(r.mem, c).0) == after[j]
    ensures Ahead(r, before, after, w, Advance(r.mem, c).0, |before| + j + 1)
  {
    var d := after[j];
    assert after[j..][0] == d && after[j..][1..] == after[j + 1..];
    AdvanceTo(r.mem, c, c.Next(), d);
    ChainAppend(r.mem, 0, after[..j], c.Next(), d);
    assert after[..j] + [d] == after[..j + 1];
  }

  /** Any cursor that lags behind the writer is handed exactly the packet it is due. */
  lemma ReadsDue(r: Ring, before: seq<Packet>, after: seq<Packet>, w: nat, c: Cursor, k: nat)
    requires Layout(r, before, after, w) && Ahead(r, before, after, w, c, k)
    requires k < |before + after|
    ensures 2 <= |r.mem|
    ensures Handed(r.mem, Advance(r.mem, c).0) == (before + after)[k]
    ensures Ahead(r, before, after, w, Advance(r.mem, c).0, k + 1)
  {
    if k < |before| {
      ReadsBefore(r, before, after, w, c, k);
    } else if k == |before| {
      ReadsFirstAfter(r, before, after, w, c);
    } else {
      ReadsNextAfter(r, before, after, w, c, k - |before|);
    }
  }

  lemma OwnCursorIsAhead(r: Ring, before: seq<Packet>, after: seq<Packet>, w: nat)
    requires Layout(r, before, after, w)
    ensures Ahead(r, before, after, w, r.reader, 0)
  {
    assert before[..0] == [] && before[0..] == before;
  }

  /** Removing a packet that lies before the wrap point. */
  lemma ProceedBefore(r: Ring, before: seq<Packet>, after: seq<Packet>, w: nat)
    requires Layout(r, before, after, w) && before != []
    ensures 2 <= |r.mem| && Proceed(r) == r.(reader := Cursor(r.reader.Next() + 2, |before[0]|))
    ensures Layout(Proceed(r), before[1..], after, w)
  {
    AdvanceTo(r.mem, r.reader, r.reader.Next(), before[0]);
    ChainEnd(r.mem, r.reader.Next() + 2 + |before[0]|, before[1..], w);
  }

  /** Removing the first packet after the wrap: the block is in write-after-read order again. */
  lemma ProceedWrap(r: Ring, after: seq<Packet>, w: nat)
    requires Layout(r, [], after, w) && after != []
    ensures 2 <= |r.mem| && Proceed(r) == r.(reader := Cursor(2, |after[0]|), writeBeforeRead := false)
    ensures Layout(Proceed(r), after[1..], [], r.wp)
  {
    AdvanceTo(r.mem, r.reader, 0, after[0]);
    ChainEnd(r.mem, 2 + |after[0]|, after[1..], r.wp);
    ChainEnd(r.mem, 0, after, r.wp);
  }

  lemma AheadBefore(r: Ring, r': Ring, before: seq<Packet>, after: seq<Packet>, w: nat, c: Cursor, k: nat)
    requires before != [] && 0 < k && Ahead(r, before, after, w, c, k)
    requires r' == r.(reader := Cursor(r.reader.Next() + 2, |before[0]|))
    ensures Ahead(r', before[1..], after, w, c, k - 1)
  {
    if k <= |before| {
      assert before[..k][1..] == before[1..][..k - 1] && before[k..] == before[1..][k - 1..];
    }
  }

  lemma AheadWrap(r: Ring, r': Ring, after: seq<Packet>, w: nat, c: Cursor, k: nat)
    requires after != [] && 0 < k && Ahead(r, [], after, w, c, k)
    requires r' == r.(reader := Cursor(2, |after[0]|), writeBeforeRead := false)
    ensures Ahead(r', after[1..], [], r.wp, c, k - 1)
  {
    assert after[..k][1..] == after[1..][..k - 1] && after[k..] == after[1..][k - 1..];
  }

  /** Every cursor that is k packets ahead of the ring's own is k - 1 ahead once a packet is removed. */
  ghost predicate Nearer(r: Ring, before: seq<Packet>, after: seq<Packet>, w: nat,
                         r': Ring, before': seq<Packet>, after': seq<Packet>, w': nat)
  {
    forall c, k :: 0 < k && Ahead(r, before, after, w, c, k) ==> Ahead(r', before', after', w', c, k - 1)
  }

  lemma NearerBefore(r: Ring, r': Ring, before: seq<Packet>, after: seq<Packet>, w: nat)
    requires before != [] && r' == r.(reader := Cursor(r.reader.Next() + 2, |before[0]|))
    ensures Nearer(r, before, after, w, r', before[1..], after, w)
  {
    forall c, k | 0 < k && Ahead(r, before, after, w, c, k)
      ensures Ahead(r', before[1..], after, w, c, k - 1)
    {
      AheadBefore(r, r', before, after, w, c, k);
    }
  }

  lemma NearerWrap(r: Ring, r': Ring, after: seq<Packet>, w: nat)
    requires after != [] && r' == r.(reader := Cursor(2, |after[0]|), writeBeforeRead := false)
    ensures Nearer(r, [], after, w, r', after[1..], [], r.wp)
  {
    forall c, k | 0 < k && Ahead(r, [], after, w, c, k)
      ensures Ahead(r', after[1..], [], r.wp, c, k - 1)
    {
      AheadWrap(r, r', after, w, c, k);
    }
  }

  lemma ProceedHands(r: Ring, before: seq<Packet>, after: seq<Packet>, w: nat)
    requires Layout(r, before, after, w) && before + after != []
    ensures 2 <= |r.mem| && Handed(r.mem, Proceed(r).reader) == (before + after)[0]
  {
    OwnCursorIsAhead(r, before, after, w);
    ReadsDue(r, before, after, w, r.reader, 0);
  }

  /** Removing the oldest packet keeps the rest, and every cursor already past it. */
  lemma ProceedDrops(r: Ring, before: seq<Packet>, after: seq<Packet>, w: nat)
      returns (before': seq<Packet>, after': seq<Packet>, w': nat)
    requires Layout(r, before, after, w) && before + after != []
    ensures 2 <= |r.mem|
    ensures before' + after' == (before + after)[1..]
    ensures Layout(Proceed(r), before', after', w')
    ensures Handed(r.mem, Proceed(r).reader) == (before + after)[0]
    ensures Nearer(r, before, after, w, Proceed(r), before', after', w')
  {
    ProceedHands(r, before, after, w);
    if before != [] {
      ProceedBefore(r, before, after, w);
      before', after', w' := before[1..], after, w;
      NearerBefore(r, Proceed(r), before, after, w);
    } else {
      ProceedWrap(r, after, w);
      before', after', w' := after[1..], [], r.wp;
      NearerWrap(r, Proceed(r), after, w);
    }
  }

  lemma PutRecord(m: seq<byte>, p: nat, d: Packet)
    requires 0 < |d| < U16 && p + 2 + |d| <= |m|
    ensures RecordAt(Put(m, p, Host16(|d|) + d), p, d)
    ensures forall i :: 0 <= i < p || p + 2 + |d| <= i < |m| ==> Put(m, p, Host16(|d|) + d)[i] == m[i]
  {
    var m' := Put(m, p, Host16(|d|) + d);
    assert m'[p..p + 2 + |d|] == Host16(|d|) + d;
  }

  lemma ZeroFromMarks(m: seq<byte>, p: nat)
    requires p <= |m|
    ensures Marked(ZeroFrom(m, p), p)
    ensures forall i :: 0 <= i < p ==> ZeroFrom(m, p)[i] == m[i]
  {
  }

  /** Carrying every cursor over to a memory that agrees on the bytes not yet consumed. */
  lemma AheadFrame(r: Ring, r': Ring, before: seq<Packet>, after: seq<Packet>, w: nat, c: Cursor, k: nat)
    requires Ahead(r, before, after, w, c, k)
    requires |r.mem| == |r'.mem| && r.reader == r'.reader && r'.InBounds()
    requires r.reader.Next() <= w <= |r.mem| && r.wp <= |r.mem|
    requires forall i :: r.reader.Next() <= i < w ==> r.mem[i] == r'.mem[i]
    requires after != [] ==> r'.wp == r.wp && forall i :: 0 <= i < r.wp ==> r.mem[i] == r'.mem[i]
    ensures Ahead(r', before, after, w, c, k)
  {
    if k <= |before| {
      ChainEnd(r.mem, r.reader.Next(), before[..k], c.Next());
      ChainEnd(r.mem, c.Next(), before[k..], w);
      ChainFrame(r.mem, r'.mem, r.reader.Next(), before[..k], c.Next());
      ChainFrame(r.mem, r'.mem, c.Next(), before[k..], w);
    } else {
      var j := k - |before|;
      ChainEnd(r.mem, 0, after[..j], c.Next());
      ChainEnd(r.mem, c.Next(), after[j..], r.wp);
      ChainFrame(r.mem, r'.mem, 0, after[..j], c.Next());
      ChainFrame(r.mem, r'.mem, c.Next(), after[j..], r.wp);
    }
  }

  lemma LayoutFrame(r: Ring, r': Ring, before: seq<Packet>, after: seq<Packet>, w: nat)
    requires Layout(r, before, after, w)
    requires r' == r.(mem := r'.mem) && |r.mem| == |r'.mem|
    requires forall i :: r.reader.Next() <= i < w ==> r.mem[i] == r'.mem[i]
    requires r.writeBeforeRead ==> Marked(r'.mem, w) && forall i :: 0 <= i < r.wp ==> r.mem[i] == r'.mem[i]
    ensures Layout(r', before, after, w)
  {
    ChainEnd(r.mem, r.reader.Next(), before, w);
    ChainFrame(r.mem, r'.mem, r.reader.Next(), before, w);
    if r.writeBeforeRead { ChainFrame(r.mem, r'.mem, 0, after, r.wp); }
  }

  /** A cursor still in the stretch before the wrap, or in the only stretch there is. */
  lemma AheadAppendBefore(r: Ring, r': Ring, before: seq<Packet>, after: seq<Packet>, w: nat, d: Packet, c: Cursor,
                          k: nat)
    requires Layout(r, before, after, w) && Ahead(r, before, after, w, c, k) && k <= |before|
    requires RecordAt(r'.mem, r.wp, d) && r'.reader == r.reader && r'.wp == r.wp + 2 + |d| && |r'.mem| == |r.mem|
    requires forall i :: r.reader.Next() <= i < w ==> r'.mem[i] == r.mem[i]
    ensures r.writeBeforeRead ==> Ahead(r', before, after + [d], w, c, k)
    ensures !r.writeBeforeRead ==> Ahead(r', before + [d], [], r'.wp, c, k)
  {
    ChainEnd(r.mem, r.reader.Next(), before[..k], c.Next());
    ChainEnd(r.mem, c.Next(), before[k..], w);
    ChainFrame(r.mem, r'.mem, r.reader.Next(), before[..k], c.Next());
    ChainFrame(r.mem, r'.mem, c.Next(), before[k..], w);
    if !r.writeBeforeRead {
      ChainAppend(r'.mem, c.Next(), before[k..], w, d);
      assert (before + [d])[..k] == before[..k] && (before + [d])[k..] == before[k..] + [d];
    }
  }

  /** A cursor that has already wrapped. */
  lemma AheadAppendAfter(r: Ring, r': Ring, before: seq<Packet>, after: seq<Packet>, w: nat, d: Packet, c: Cursor,
                         k: nat)
    requires Layout(r, before, after, w) && Ahead(r, before, after, w, c, k) && k > |before|
    requires RecordAt(r'.mem, r.wp, d) && r'.reader == r.reader && r'.wp == r.wp + 2 + |d| && |r'.mem| == |r.mem|
    requires forall i :: 0 <= i < r.wp ==> r'.mem[i] == r.mem[i]
    ensures Ahead(r', before, after + [d], w, c, k)
  {
    var j := k - |before|;
    ChainEnd(r.mem, 0, after[..j], c.Next());
    ChainEnd(r.mem, c.Next(), after[j..], r.wp);
    ChainFrame(r.mem, r'.mem, 0, after[..j], c.Next());
    ChainFrame(r.mem, r'.mem, c.Next(), after[j..], r.wp);
    ChainAppend(r'.mem, c.Next(), after[j..], r.wp, d);
    assert (after + [d])[..j] == after[..j] && (after + [d])[j..] == after[j..] + [d];
  }

  /** Appending to the packets after the wrap, or to the only stretch there is. */
  lemma AheadAppend(r: Ring, r': Ring, before: seq<Packet>, after: seq<Packet>, w: nat, d: Packet, c: Cursor, k: nat)
    requires Layout(r, before, after, w) && Ahead(r, before, after, w, c, k)
    requires RecordAt(r'.mem, r.wp, d) && r'.reader == r.reader && r'.wp == r.wp + 2 + |d|
    requires |r'.mem| == |r.mem|
    requires forall i :: 0 <= i < r.wp || r.reader.Next() <= i < w ==> r'.mem[i] == r.mem[i]
    ensures r.writeBeforeRead ==> Ahead(r', before, after + [d], w, c, k)
    ensures !r.writeBeforeRead ==> Ahead(r', before + [d], [], r'.wp, c, k)
  {
    ChainEnd(r.mem, r.reader.Next(), before, w);
    if k <= |before| {
      AheadAppendBefore(r, r', before, after, w, d, c, k);
    } else {
      AheadAppendAfter(r, r', before, after, w, d, c, k);
    }
  }

  lemma LayoutAppend(r: Ring, r': Ring, before: seq<Packet>, after: seq<Packet>, w: nat, d: Packet)
    requires Layout(r, before, after, w) && r'.InBounds()
    requires RecordAt(r'.mem, r.wp, d) && r' == r.(mem := r'.mem, wp := r.wp + 2 + |d|) && |r'.mem| == |r.mem|
    requires forall i :: 0 <= i < r.wp || r.wp + 2 + |d| <= i < |r.mem| ==> r'.mem[i] == r.mem[i]
    requires r.writeBeforeRead ==> r'.wp <= r.reader.pos
    ensures r.writeBeforeRead ==> Layout(r', before, after + [d], w)
    ensures !r.writeBeforeRead ==> Layout(r', before + [d], [], r'.wp)
  {
    ChainEnd(r.mem, r.reader.Next(), before, w);
    ChainFrame(r.mem, r'.mem, r.reader.Next(), before, w);
    if r.writeBeforeRead {
      ChainFrame(r.mem, r'.mem, 0, after, r.wp);
      ChainAppend(r'.mem, 0, after, r.wp, d);
    } else {
      ChainAppend(r'.mem, r.reader.Next(), before, w, d);
    }
  }

  /** The state a write leaves: the queue with the packet appended exactly if it was stored. */
  ghost predicate Grown(r: Ring, before: seq<Packet>, after: seq<Packet>, w: nat, d: Packet,
                        r': Ring, ok: bool, before': seq<Packet>, after': seq<Packet>, w': nat)
  {
    && Layout(r', before', after', w')
    && before' + after' == before + after + (if ok then [d] else [])
    && r'.reader == r.reader
    && forall c, k :: Ahead(r, before, after, w, c, k) ==> Ahead(r', before', after', w', c, k)
  }

  lemma PlaceGrows(r: Ring, before: seq<Packet>, after: seq<Packet>, w: nat, d: Packet)
      returns (before': seq<Packet>, after': seq<Packet>, w': nat)
    requires Layout(r, before, after, w) && 0 < |d| < U16
    requires Overflows(r, |d|) ==> r.writeBeforeRead
    ensures Grown(r, before, after, w, d, Place(r, d).0, Place(r, d).1, before', after', w')
  {
    var (r', ok) := Place(r, d);
    if !ok {
      before', after', w' := before, after, w;
    } else {
      PutRecord(r.mem, r.wp, d);
      ChainEnd(r.mem, r.reader.Next(), before, w);
      LayoutAppend(r, r', before, after, w, d);
      if r.writeBeforeRead {
        before', after', w' := before, after + [d], w;
      } else {
        before', after', w' := before + [d], [], r'.wp;
      }
      forall c, k | Ahead(r, before, after, w, c, k)
        ensures Ahead(r', before', after', w', c, k)
      {
        AheadAppend(r, r', before, after, w, d, c, k);
      }
    }
  }

  /** The zero fill alone, when it does not reach an unread packet. */
  lemma ZeroFillKeeps(r: Ring, before: seq<Packet>, after: seq<Packet>, w: nat)
    requires Layout(r, before, after, w)
    requires before == [] || !r.writeBeforeRead
    ensures var z := r.(mem := ZeroFrom(r.mem, r.wp));
            && Layout(z, before, after, w)
            && forall c, k :: Ahead(r, before, after, w, c, k) ==> Ahead(z, before, after, w, c, k)
  {
    var z := r.(mem := ZeroFrom(r.mem, r.wp));
    ZeroFromMarks(r.mem, r.wp);
    ChainEnd(r.mem, r.reader.Next(), before, w);
    LayoutFrame(r, z, before, after, w);
    forall c, k | Ahead(r, before, after, w, c, k)
      ensures Ahead(z, before, after, w, c, k)
    {
      AheadFrame(r, z, before, after, w, c, k);
    }
  }

  lemma MarkMeansNothingBefore(r: Ring, before: seq<Packet>, after: seq<Packet>, w: nat)
    requires Layout(r, before, after, w)
    ensures r.writeBeforeRead ==> (AtMark(r) <==> before == [])
  {
    if before != [] {
      RecordHead(r.mem, r.reader.Next(), before[0]);
    } else if r.writeBeforeRead && |r.mem| - w >= 2 {
      assert r.mem[w] == 0 && r.mem[w + 1] == 0;
    }
  }

  /** The jump to the start of the block: what was the only stretch becomes the one before the wrap. */
  lemma WrapKeeps(r: Ring, before: seq<Packet>)
    requires Layout(r, before, [], r.wp) && !r.writeBeforeRead
    ensures var z := r.(mem := ZeroFrom(r.mem, r.wp), writeBeforeRead := true, wp := 0);
            Layout(z, before, [], r.wp)
            && forall c, k :: Ahead(r, before, [], r.wp, c, k) ==> Ahead(z, before, [], r.wp, c, k)
  {
    ZeroFillKeeps(r, before, [], r.wp);
    ZeroFromMarks(r.mem, r.wp);
    var y := r.(mem := ZeroFrom(r.mem, r.wp));
    ChainEnd(r.mem, r.reader.Next(), before, r.wp);
    forall c, k | Ahead(r, before, [], r.wp, c, k)
      ensures Ahead(y.(writeBeforeRead := true, wp := 0), before, [], r.wp, c, k)
    {
      AheadFrame(y, y.(writeBeforeRead := true, wp := 0), before, [], r.wp, c, k);
    }
  }

  /**
   * A write that does not wipe keeps every unread packet, for the collector and
   * for every module cursor, and appends its packet exactly when it reports success.
   */
  lemma WriteGrows(r: Ring, before: seq<Packet>, after: seq<Packet>, w: nat, d: Packet)
      returns (before': seq<Packet>, after': seq<Packet>, w': nat)
    requires Layout(r, before, after, w) && |d| < U16 && !Wipes(r, d)
    ensures Grown(r, before, after, w, d, Write(r, d).0, Write(r, d).1, before', after', w')
  {
    if |d| == 0 || |d| > |r.mem| {
      before', after', w' := before, after, w;
    } else if !Overflows(r, |d|) {
      before', after', w' := PlaceGrows(r, before, after, w, d);
    } else if r.reader.pos >= r.wp {
      MarkMeansNothingBefore(r, before, after, w);
      ZeroFillKeeps(r, before, after, w);
      before', after', w' := before, after, w;
    } else {
      WrapKeeps(r, before);
      var z := r.(mem := ZeroFrom(r.mem, r.wp), writeBeforeRead := true, wp := 0);
      before', after', w' := PlaceGrows(z, before, [], r.wp, d);
    }
  }

  /** A wiping write is rejected, and what it leaves no longer holds the unread packets. */
  lemma WipeLoses(r: Ring, before: seq<Packet>, after: seq<Packet>, w: nat, d: Packet)
    requires Layout(r, before, after, w) && |d| < U16 && Wipes(r, d)
    ensures !Write(r, d).1 && !Holds(Write(r, d).0, before + after)
  {
    var z := Write(r, d).0;
    ZeroFromMarks(r.mem, r.wp);
    MarkMeansNothingBefore(r, before, after, w);
    assert |before + after| > |after|;
    forall b, a, w' | before + after == b + a && Layout(z, b, a, w')
      ensures false
    {
      MarkMeansNothingBefore(z, b, a, w');
      ChainFrame(r.mem, z.mem, 0, after, r.wp);
      ChainUnique(z.mem, 0, a, after, r.wp);
    }
  }

  /**
   * Exactly which writes are safe: the unread packets survive, with the new one
   * appended if it was accepted, if and only if the write does not wipe.
   */
  lemma WriteIsSafeIff(r: Ring, q: seq<Packet>, d: Packet)
    requires Holds(r, q) && |d| < U16
    ensures var (r', ok) := Write(r, d);
            Holds(r', q + if ok then [d] else []) <==> !Wipes(r, d)
  {
    var before, after, w :| q == before + after && Layout(r, before, after, w);
    if Wipes(r, d) {
      WipeLoses(r, before, after, w, d);
      assert q + [] == q;
    } else {
      var b, a, w' := WriteGrows(r, before, after, w, d);
    }
  }

  // ---------------------------------------------------------------- which packets are stored

  /**
   * The octets a write must leave alone: from the packet handed out last up to the write
   * position or, once the writer has wrapped, up to the end of the block and from its start.
   */
  predicate Taken(r: Ring, i: nat) {
    if r.writeBeforeRead then i < r.wp || r.reader.pos <= i else r.reader.pos <= i < r.wp
  }

  /** A packet of len octets and its length fit at p, short of the end of the block. */
  ghost predicate Clear(r: Ring, p: nat, len: nat) {
    p + 2 + len < |r.mem| && forall i :: p <= i < p + 2 + len ==> !Taken(r, i)
  }

  /** There is room where the last packet ends or at the start of the block. */
  ghost predicate Room(r: Ring, len: nat) {
    Clear(r, r.wp, len) || Clear(r, 0, len)
  }

  /** Taken are the packet handed out last, the unread ones, and the zeros from the wrap point on; nothing else. */
  lemma TakenAre(r: Ring, before: seq<Packet>, after: seq<Packet>, w: nat, i: nat)
    requires Layout(r, before, after, w) && i < |r.mem|
    ensures r.reader.Next() <= w
    ensures Taken(r, i) <==> (r.reader.pos <= i < w || (r.writeBeforeRead && (i < r.wp || w <= i)))
  {
    ChainEnd(r.mem, r.reader.Next(), before, w);
  }

  lemma ClearIs(r: Ring, p: nat, len: nat)
    ensures Clear(r, p, len) <==>
              p + 2 + len < |r.mem|
              && if r.writeBeforeRead then r.wp <= p && p + 2 + len <= r.reader.pos
                 else p + 2 + len <= r.reader.pos || r.wp <= p || r.wp <= r.reader.pos
  {
    if Clear(r, p, len) {
      assert !Taken(r, p) && !Taken(r, p + 1 + len);
      if !r.writeBeforeRead && p < r.reader.pos < p + 2 + len { assert !Taken(r, r.reader.pos); }
    }
  }

  /**
   * A packet is stored if and only if there is room for it, and then in octets that were
   * free; the block's start is used only when the packet would reach the end of the block.
   */
  lemma StoredIff(r: Ring, before: seq<Packet>, after: seq<Packet>, w: nat, d: Packet)
    requires Layout(r, before, after, w) && 0 < |d| < U16
    ensures Write(r, d).1 <==> Room(r, |d|)
    ensures Write(r, d).1 ==>
              var p := if Overflows(r, |d|) then 0 else r.wp;
              && Clear(r, p, |d|) && RecordAt(Write(r, d).0.mem, p, d)
              && Write(r, d).0.wp == p + 2 + |d| && Write(r, d).0.writeBeforeRead == (r.writeBeforeRead || p < r.wp)
  {
    ChainEnd(r.mem, r.reader.Next(), before, w);
    ClearIs(r, r.wp, |d|);
    ClearIs(r, 0, |d|);
    if Write(r, d).1 {
      if Overflows(r, |d|) { PutRecord(ZeroFrom(r.mem, r.wp), 0, d); } else { PutRecord(r.mem, r.wp, d); }
    }
  }
}
