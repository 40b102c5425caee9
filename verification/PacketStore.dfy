/**
 * The collector's packet store, its packet directory and the exporter's entry
 * points, and a module's import loop: the sequential code behind the protocol steps.
 */
module PacketStore {
  import opened Bytes
  import opened FileCounters

  type Packet = seq<byte>

  /** The counters from `from` up to, not including, `to`. */
  function Range(from: Count, to: Count): (r: seq<Count>)
    ensures |r| == Minus(to, from)
    decreases Minus(to, from)
  {
    if from == to then [] else [from] + Range(Bump(from), to)
  }

  /** Unwrapped, the range is the published packet numbers in order. */
  lemma {:induction false} RangeUnwraps(a: nat, b: nat, k: nat)
    requires a <= k < b < a + MAX_FILES
    ensures Minus(Wrap(b), Wrap(a)) == b - a
    ensures Range(Wrap(a), Wrap(b))[k - a] == Wrap(k)
    decreases k - a
  {
    MinusCountsIff(b, a);
    WrapTells(a, b);
    BumpWraps(a);
    if a < k { RangeUnwraps(a + 1, b, k); }
  }

  lemma {:induction false} RangeAt(from: Count, to: Count, k: nat)
    requires k < Minus(to, from)
    ensures Range(from, to)[k] == Plus(from, k)
    decreases k
  {
    if k > 0 { RangeAt(Bump(from), to, k - 1); }
  }

  class IpfixFile {
    var fileNames: seq<Count>
    var dir: map<Count, Packet>

    constructor ()
      ensures fileNames == [] && dir == map[]
    {
      fileNames, dir := [], map[];
    }

    /** writable: whether the file could be opened and written. */
    method WritePacket(name: Count, data: Packet, writable: bool) returns (ok: bool)
      modifies this
      ensures ok == writable
      ensures ok ==> dir == old(dir)[name := data] && fileNames == old(fileNames) + [name]
      ensures !ok ==> dir == old(dir) && fileNames == old(fileNames)
    {
      if !writable {
        return false;
      }
      dir := dir[name := data];
      fileNames := fileNames + [name];
      return true;
    }

    method ProceedOnePacket()
      requires fileNames != []
      modifies this
      ensures dir == old(dir) - {old(fileNames)[0]}
      ensures fileNames == old(fileNames)[1..]
    {
      dir := dir - {fileNames[0]};
      fileNames := fileNames[1..];
    }
  }

  class IpfixPacketStore {
    const storage: IpfixFile
    var files: seq<IpfixFile>
    var newest: Count
    var oldest: Count

    constructor (storage: IpfixFile)
      requires storage.fileNames == []
      ensures this.storage == storage && files == [] && newest == 0 && oldest == 0 && Valid()
    {
      this.storage := storage;
      files, newest, oldest := [], 0, 0;
    }

    ghost predicate Valid()
      reads this, storage
    {
      && (forall k :: 0 <= k < |files| ==> files[k] == storage)
      && |files| == |storage.fileNames|
      && |files| < MAX_FILES
      && Minus(newest, oldest) == |files|
      && forall k :: 0 <= k < |files| ==> storage.fileNames[k] == Plus(oldest, k)
    }

    method Push(f: IpfixFile)
      modifies this
      ensures files == old(files) + [f] && newest == Bump(old(newest)) && oldest == old(oldest)
    {
      files := files + [f];
      newest := Bump(newest);
    }

    method PopOne()
      requires Valid() && files != []
      modifies this, storage
      ensures Valid()
      ensures files == old(files)[1..] && newest == old(newest) && oldest == Bump(old(oldest))
      ensures storage.fileNames == old(storage.fileNames)[1..]
      ensures storage.dir == old(storage.dir) - {old(oldest)}
    {
      files[0].ProceedOnePacket();
      files := files[1..];
      oldest := Bump(oldest);
      assert forall k :: 0 <= k < |files| ==> storage.fileNames[k] == old(storage.fileNames)[k + 1];
    }

    /** popIpfixPacket(sourceID, count): thrown stands for the runtime_error. */
    method Pop(count: nat) returns (thrown: bool)
      requires Valid()
      modifies this, storage
      ensures Valid()
      ensures thrown <==> count > old(|files|)
      ensures thrown ==> files == old(files) && oldest == old(oldest) && storage.dir == old(storage.dir)
      ensures !thrown ==> oldest == Plus(old(oldest), count) && files == old(files)[count..]
      ensures !thrown ==> storage.dir == old(storage.dir) - (set k | 0 <= k < count :: Plus(old(oldest), k))
      ensures newest == old(newest)
    {
      if count > |files| {
        return true;
      }
      var i := 0;
      while i != count
        invariant 0 <= i <= count <= old(|files|)
        invariant Valid() && newest == old(newest)
        invariant files == old(files)[i..] && oldest == Plus(old(oldest), i)
        invariant storage.dir == old(storage.dir) - (set k | 0 <= k < i :: Plus(old(oldest), k))
        decreases count - i
      {
        PopOne();
        i := i + 1;
      }
      return false;
    }
  }

  class DetectModExporter {
    const storage: IpfixFile
    const store: IpfixPacketStore
    const counter: FileCounter
    /** The shared block nps. */
    var from: Count
    var to: Count

    ghost predicate Valid()
      reads this, store, storage, counter
    {
      store.storage == storage && store.Valid() && counter.i == store.newest
    }

    constructor ()
      ensures Valid() && store.files == [] && storage.dir == map[]
    {
      var f := new IpfixFile();
      storage := f;
      store := new IpfixPacketStore(f);
      counter := new FileCounter(0);
      from, to := 0, 0;
    }

    /** The USE_FILES branch; the collector is used with fewer than MAX_FILES packets outstanding. */
    method ExportToSink(data: Packet, writable: bool) returns (status: int)
      requires Valid() && |store.files| + 1 < MAX_FILES
      modifies store, storage, counter
      ensures Valid()
      ensures status == if writable then 0 else -1
      ensures writable ==> storage.dir == old(storage.dir)[old(counter.i) := data]
      ensures writable ==> store.newest == Bump(old(store.newest)) && |store.files| == old(|store.files|) + 1
      ensures !writable ==> storage.dir == old(storage.dir)
      ensures !writable ==> store.newest == old(store.newest) && store.files == old(store.files)
      ensures store.oldest == old(store.oldest) && from == old(from) && to == old(to)
    {
      var ok := storage.WritePacket(counter.i, data, writable);
      if ok {
        store.Push(storage);
      } else {
        return -1;
      }
      var name := counter.PostIncrement();
      assert name == Wrap(name);
      BumpWraps(name);
      return 0;
    }

    /** The part of notify that publishes the range: its counters name exactly the queued files, oldest first. */
    method Publish()
      requires Valid()
      modifies `from, `to
      ensures Valid() && from == store.oldest && to == store.newest
      ensures Minus(to, from) == |store.files|
      ensures Range(from, to) == storage.fileNames
    {
      from := store.oldest;
      to := store.newest;
      forall k | 0 <= k < |store.files|
        ensures Range(from, to)[k] == storage.fileNames[k]
      {
        RangeAt(from, to, k);
      }
    }

    /** Everything published and nothing else is removed, whatever was pushed since. */
    method ClearSink() returns (thrown: bool)
      requires Valid() && from == store.oldest && Minus(to, from) <= |store.files|
      modifies this, store, storage
      ensures Valid() && !thrown
      ensures store.oldest == to && store.newest == old(store.newest)
      ensures storage.dir == old(storage.dir) - (set k | 0 <= k < Minus(old(to), old(from)) :: Plus(old(from), k))
    {
      MinusUndoesPlus(to, from);
      thrown := store.Pop(Minus(to, from));
    }
  }

  /** What an import hands to the packet processor: the wanted packets of the range, in order. */
  function Imported(dir: map<Count, Packet>, names: seq<Count>, wanted: Packet -> bool): (r: seq<Packet>)
    requires forall c :: c in names ==> c in dir
  {
    if names == [] then []
    else (if wanted(dir[names[0]]) then [dir[names[0]]] else []) + Imported(dir, names[1..], wanted)
  }

  /** PacketReader::import over files, with the published range unchanged meanwhile. */
  method Import(dir: map<Count, Packet>, from: Count, to: Count, wanted: Packet -> bool) returns (handed: seq<Packet>)
    requires forall c :: c in Range(from, to) ==> c in dir
    ensures handed == Imported(dir, Range(from, to), wanted)
  {
    handed := [];
    var i := new FileCounter(from);
    ghost var rest := Range(from, to);
    ghost var whole := Imported(dir, rest, wanted);
    while i.i != to
      invariant rest == Range(i.i, to) && (forall c :: c in rest ==> c in dir)
      invariant handed + Imported(dir, rest, wanted) == whole
      decreases Minus(to, i.i)
    {
      ghost var at := i.i;
      assert rest == [at] + Range(Bump(at), to);
      rest := Range(Bump(at), to);
      ImportedNext(dir, at, rest, handed, wanted, whole);
      if wanted(dir[i.i]) {
        handed := handed + [dir[i.i]];
      }
      assert at == Wrap(at);
      BumpWraps(at);
      i.PreIncrement();
      assert i.i == Bump(at);
    }
  }

  lemma {:induction false} ImportedNext(dir: map<Count, Packet>, i: Count, rest: seq<Count>, handed: seq<Packet>,
                                        wanted: Packet -> bool,
                     whole: seq<Packet>)
    requires (forall c :: c in [i] + rest ==> c in dir) && handed + Imported(dir, [i] + rest, wanted) == whole
    ensures i in dir && forall c :: c in rest ==> c in dir
    ensures (if wanted(dir[i]) then handed + [dir[i]] else handed) + Imported(dir, rest, wanted) == whole
  {
    assert i in [i] + rest && forall c :: c in rest ==> c in [i] + rest;
    assert ([i] + rest)[1..] == rest;
    if wanted(dir[i]) { Assoc(handed, [dir[i]], Imported(dir, rest, wanted)); }
  }

  /** Those of the packets that are wanted, in order. */
  function Selected(packets: seq<Packet>, wanted: Packet -> bool): (r: seq<Packet>)
    ensures (forall p :: p in packets ==> wanted(p)) ==> r == packets
  {
    if packets == [] then []
    else (if wanted(packets[0]) then [packets[0]] else []) + Selected(packets[1..], wanted)
  }

  /** A selection has exactly the wanted packets. */
  lemma {:induction false} SelectedAre(packets: seq<Packet>, wanted: Packet -> bool, p: Packet)
    ensures multiset(Selected(packets, wanted))[p] == if wanted(p) then multiset(packets)[p] else 0
  {
    if packets != [] {
      SelectedAre(packets[1..], wanted, p);
      assert packets == [packets[0]] + packets[1..];
    }
  }

  /** And keeps their order. */
  lemma {:induction false} SelectedJoin(a: seq<Packet>, b: seq<Packet>, wanted: Packet -> bool)
    ensures Selected(a + b, wanted) == Selected(a, wanted) + Selected(b, wanted)
  {
    if a == [] {
      assert a + b == b;
    } else {
      SelectedJoin(a[1..], b, wanted);
      assert (a + b)[1..] == a[1..] + b;
      Assoc(if wanted(a[0]) then [a[0]] else [], Selected(a[1..], wanted), Selected(b, wanted));
    }
  }

  /** One round without further arrivals: what was exported and is wanted is imported, in order, and then gone. */
  lemma {:induction false} ImportedAll(dir: map<Count, Packet>, log: seq<Packet>, a: nat, b: nat,
                                       wanted: Packet -> bool)
    requires a <= b <= |log| && b < a + MAX_FILES
    requires forall p :: a <= p < b ==> Wrap(p) in dir && dir[Wrap(p)] == log[p]
    ensures forall c :: c in Range(Wrap(a), Wrap(b)) ==> c in dir
    ensures Imported(dir, Range(Wrap(a), Wrap(b)), wanted) == Selected(log[a..b], wanted)
    decreases b - a
  {
    WrapTells(a, b);
    if a < b {
      BumpWraps(a);
      ImportedAll(dir, log, a + 1, b, wanted);
      assert Range(Wrap(a), Wrap(b))[1..] == Range(Wrap(a + 1), Wrap(b));
      assert log[a..b][1..] == log[a + 1..b];
    }
  }
}
