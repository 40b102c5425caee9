/** The collecting process's template list: a singly linked list kept as a map from (source, template id). */
module Templates {
  /** type.id, type.length, type.isVariableLength, type.eid and offset of a FieldInfo. */
  datatype FieldInfo = FieldInfo(id: nat, length: nat, isVariable: bool, eid: nat, offset: nat)

  /** What a BufferedTemplate holds besides its key and its link. */
  datatype Template = Template(recordLength: nat, setId: nat, expires: int, fields: seq<FieldInfo>)

  datatype Key = Key(sourceId: nat, templateId: nat)

  type Table = map<Key, Template>

  /** getBufferedTemplate drops a template whose time is over. */
  predicate Expired(t: Template, now: int) {
    t.expires != 0 && t.expires < now
  }

  function AfterGet(t: Table, k: Key, now: int): Table {
    if k in t && Expired(t[k], now) then t - {k} else t
  }

  // ---------------------------------------------------------------- lists as tables

  datatype Entry = Entry(key: Key, template: Template)

  ghost predicate Unique(es: seq<Entry>) {
    forall i, j :: 0 <= i < j < |es| ==> es[i].key != es[j].key
  }

  function TableOf(es: seq<Entry>): Table {
    if es == [] then map[] else TableOf(es[1..])[es[0].key := es[0].template]
  }

  /** Unlinking the first entry with the key. */
  function Drop(es: seq<Entry>, k: Key): seq<Entry> {
    if es == [] then []
    else if es[0].key == k then es[1..]
    else [es[0]] + Drop(es[1..], k)
  }

  lemma {:induction false} InTable(es: seq<Entry>, k: Key)
    ensures k in TableOf(es) <==> exists i :: 0 <= i < |es| && es[i].key == k
  {
    if es != [] {
      InTable(es[1..], k);
      if k in TableOf(es) && k != es[0].key {
        var i :| 0 <= i < |es[1..]| && es[1..][i].key == k;
        assert es[i + 1].key == k;
      }
      if i :| 0 <= i < |es| && es[i].key == k && i > 0 {
        assert es[1..][i - 1].key == k;
      }
    }
  }

  lemma {:induction false} Absent(es: seq<Entry>, k: Key)
    requires k !in TableOf(es)
    ensures forall i :: 0 <= i < |es| ==> es[i].key != k
  {
    InTable(es, k);
  }

  lemma {:induction false} TableAt(es: seq<Entry>, i: nat)
    requires Unique(es) && i < |es|
    ensures es[i].key in TableOf(es) && TableOf(es)[es[i].key] == es[i].template
  {
    if i > 0 { TableAt(es[1..], i - 1); }
  }

  lemma {:induction false} DropAt(es: seq<Entry>, k: Key, at: nat)
    requires at < |es| && es[at].key == k && forall i :: 0 <= i < at ==> es[i].key != k
    ensures Drop(es, k) == es[..at] + es[at + 1..] && k in TableOf(es)
  {
    if at > 0 {
      DropAt(es[1..], k, at - 1);
      assert es[..at] == [es[0]] + es[1..][..at - 1] && es[1..][at..] == es[at + 1..];
    }
  }

  lemma {:induction false} DropNone(es: seq<Entry>, k: Key)
    requires forall i :: 0 <= i < |es| ==> es[i].key != k
    ensures Drop(es, k) == es && k !in TableOf(es)
  {
    if es != [] { DropNone(es[1..], k); }
  }

  /** With unique keys, unlinking one entry is removal from the map, and keys stay unique. */
  lemma {:induction false} DropRemoves(es: seq<Entry>, k: Key)
    requires Unique(es)
    ensures Unique(Drop(es, k)) && TableOf(Drop(es, k)) == TableOf(es) - {k}
    ensures forall i :: 0 <= i < |Drop(es, k)| ==> Drop(es, k)[i] in es && Drop(es, k)[i].key != k
    ensures |Drop(es, k)| == |es| - if k in TableOf(es) then 1 else 0
  {
    if es != [] {
      DropRemoves(es[1..], k);
      InTable(es[1..], es[0].key);
    }
  }

  lemma {:induction false} TableUpdate(es: seq<Entry>, at: nat, t: Template)
    requires Unique(es) && at < |es|
    ensures TableOf(es[at := Entry(es[at].key, t)]) == TableOf(es)[es[at].key := t]
  {
    var es' := es[at := Entry(es[at].key, t)];
    if at > 0 {
      TableUpdate(es[1..], at - 1, t);
      assert es'[1..] == es[1..][at - 1 := Entry(es[at].key, t)];
    } else {
      assert es'[1..] == es[1..];
    }
  }

  // ---------------------------------------------------------------- the list

  class BufferedTemplate {
    const key: Key
    var template: Template
    var next: BufferedTemplate?

    constructor (key: Key, template: Template)
      ensures this.key == key && this.template == template && next == null
    {
      this.key, this.template, next := key, template, null;
    }
  }

  class TemplateBuffer {
    var head: BufferedTemplate?
    ghost var nodes: seq<BufferedTemplate>

    ghost predicate LinkAt(i: nat)
      reads this`nodes, nodes`next
    {
      i < |nodes| && nodes[i].next == if i + 1 < |nodes| then nodes[i + 1] else null
    }

    ghost predicate Apart(i: nat, j: nat)
      reads this`nodes
    {
      i < |nodes| && j < |nodes| && nodes[i] != nodes[j]
    }

    ghost predicate Linked()
      reads this`head, this`nodes, nodes`next
    {
      && head == (if nodes == [] then null else nodes[0])
      && (forall i: nat :: i < |nodes| ==> LinkAt(i))
      && (forall i: nat, j: nat :: i < j < |nodes| ==> Apart(i, j))
    }

    static ghost function EntriesOf(ns: seq<BufferedTemplate>): (es: seq<Entry>)
      reads ns`template
      ensures |es| == |ns| && forall i :: 0 <= i < |ns| ==> es[i] == Entry(ns[i].key, ns[i].template)
    {
      if ns == [] then [] else [Entry(ns[0].key, ns[0].template)] + EntriesOf(ns[1..])
    }

    ghost function Entries(): (es: seq<Entry>)
      reads this`nodes, nodes`template
      ensures |es| == |nodes| && forall i :: 0 <= i < |nodes| ==> es[i] == Entry(nodes[i].key, nodes[i].template)
    {
      EntriesOf(nodes)
    }

    ghost predicate Valid()
      reads this`head, this`nodes, nodes`next, nodes`template
    {
      Linked() && Unique(Entries())
    }

    /** The map the list stands for. */
    ghost function Contents(): Table
      reads this`nodes, nodes`template
    {
      TableOf(Entries())
    }

    constructor ()
      ensures Valid() && Contents() == map[] && nodes == []
    {
      head, nodes := null, [];
    }

    /** The search all operations share: the node with the key, its predecessor and its place. */
    method Find(k: Key) returns (predecessor: BufferedTemplate?, bt: BufferedTemplate?, ghost at: nat)
      requires Linked()
      ensures if bt == null then forall n :: n in nodes ==> n.key != k else bt in nodes && bt.key == k
      ensures at <= |nodes| && forall i :: 0 <= i < at ==> nodes[i].key != k
      ensures bt == null <==> at == |nodes|
      ensures bt != null ==> nodes[at] == bt
      ensures bt != null && predecessor == null ==> at == 0
      ensures bt != null && predecessor != null ==> 0 < at && nodes[at - 1] == predecessor
    {
      predecessor, bt, at := null, head, 0;
      while bt != null
        invariant at <= |nodes|
        invariant bt == if at < |nodes| then nodes[at] else null
        invariant bt != null ==> predecessor == if at == 0 then null else nodes[at - 1]
        invariant forall i :: 0 <= i < at ==> nodes[i].key != k
        decreases |nodes| - at
      {
        if bt.key == k {
          return;
        }
        assert LinkAt(at);
        predecessor := bt;
        bt := bt.next;
        at := at + 1;
      }
    }

    /** Taking the first node out of the list. */
    method UnlinkHead(bt: BufferedTemplate)
      requires Linked() && nodes != [] && nodes[0] == bt
      modifies this`head, this`nodes
      ensures Linked() && nodes == old(nodes)[1..]
      ensures Entries() == old(Entries())[1..]
    {
      assert LinkAt(0);
      head := bt.next;
      nodes := nodes[1..];
      forall i: nat, j: nat | i < j < |nodes|
        ensures Apart(i, j)
      {
        assert old(Apart(i + 1, j + 1));
      }
      forall i: nat | i < |nodes|
        ensures LinkAt(i)
      {
        assert old(LinkAt(i + 1));
      }
    }

    /** The predecessor of a node is linked to its successor. */
    method Bypass(predecessor: BufferedTemplate, bt: BufferedTemplate, ghost at: nat)
      requires Linked() && 0 < at < |nodes| && nodes[at] == bt && nodes[at - 1] == predecessor
      modifies this`nodes, nodes`next
      ensures Linked() && nodes == old(nodes)[..at] + old(nodes)[at + 1..]
    {
      assert LinkAt(at);
      predecessor.next := bt.next;
      nodes := nodes[..at] + nodes[at + 1..];
      forall i: nat, j: nat | i < j < |nodes|
        ensures Apart(i, j)
      {
        assert old(Apart(if i < at then i else i + 1, if j < at then j else j + 1));
      }
      forall i: nat | i < |nodes|
        ensures LinkAt(i)
      {
        var was := if i < at then i else i + 1;
        assert old(LinkAt(was)) && nodes[i] == old(nodes)[was];
        if was < at - 1 {
          assert old(Apart(was, at - 1));
        } else if was > at {
          assert old(Apart(at - 1, was));
        }
      }
    }

    /** Taking a later node out of the list. */
    method UnlinkAfter(predecessor: BufferedTemplate, bt: BufferedTemplate, ghost at: nat)
      requires Linked() && 0 < at < |nodes| && nodes[at] == bt && nodes[at - 1] == predecessor
      modifies this`nodes, nodes`next
      ensures Linked() && nodes == old(nodes)[..at] + old(nodes)[at + 1..]
      ensures Entries() == old(Entries())[..at] + old(Entries())[at + 1..]
    {
      ghost var ns, es := nodes, Entries();
      Bypass(predecessor, bt, at);
      forall i | 0 <= i < |nodes|
        ensures Entries()[i] == (es[..at] + es[at + 1..])[i]
      {
        assert nodes[i] == if i < at then ns[i] else ns[i + 1];
      }
    }

    /** The body of destroyBufferedTemplate, on the list. */
    method DropFirst(k: Key) returns (found: bool)
      requires Linked()
      modifies this`head, this`nodes, nodes`next
      ensures Linked() && (forall n :: n in nodes ==> n in old(nodes))
      ensures Entries() == Drop(old(Entries()), k)
      ensures found <==> k in old(Contents())
    {
      ghost var es := Entries();
      var predecessor, bt, at := Find(k);
      if bt == null {
        DropNone(es, k);
        return false;
      }
      DropAt(es, k, at);
      Unlink(predecessor, bt, at);
      return true;
    }

    /** Taking the node that Find stopped at out of the list. */
    method Unlink(predecessor: BufferedTemplate?, bt: BufferedTemplate, ghost at: nat)
      requires Linked() && at < |nodes| && nodes[at] == bt
      requires if at == 0 then predecessor == null else predecessor == nodes[at - 1]
      modifies this`head, this`nodes, nodes`next
      ensures Linked() && nodes == old(nodes)[..at] + old(nodes)[at + 1..]
      ensures Entries() == old(Entries())[..at] + old(Entries())[at + 1..]
    {
      if predecessor != null {
        UnlinkAfter(predecessor, bt, at);
      } else {
        UnlinkHead(bt);
      }
    }

    /** Withdrawal removes exactly the one template; released: whether the destruction callbacks were invoked. */
    method DestroyBufferedTemplate(k: Key) returns (released: bool)
      requires Valid()
      modifies this, nodes`next
      ensures Valid() && (forall n :: n in nodes ==> n in old(nodes))
      ensures Contents() == old(Contents()) - {k}
      ensures released <==> k in old(Contents())
    {
      DropRemoves(Entries(), k);
      released := DropFirst(k);
    }

    /** The last announcement wins; every other template is untouched. */
    method BufferTemplate(bt: BufferedTemplate) returns (released: bool)
      requires Valid() && bt !in nodes
      modifies this, nodes`next, bt
      ensures Valid() && (forall n :: n in nodes ==> n == bt || n in old(nodes))
      ensures Contents() == old(Contents())[bt.key := old(bt.template).(expires := 0)]
      ensures released <==> bt.key in old(Contents())
    {
      released := DestroyBufferedTemplate(bt.key);
      ghost var es := Entries();
      Absent(es, bt.key);
      Push(bt);
      PushedFirst(es, Entries()[0]);
    }

    /** A new first entry with a key of its own. */
    static lemma {:induction false} PushedFirst(es: seq<Entry>, e: Entry)
      requires Unique(es) && forall i :: 0 <= i < |es| ==> es[i].key != e.key
      ensures Unique([e] + es) && TableOf([e] + es) == TableOf(es)[e.key := e.template]
    {
      assert ([e] + es)[1..] == es;
    }

    method Push(bt: BufferedTemplate)
      requires Linked() && bt !in nodes
      modifies this`head, this`nodes, bt
      ensures Linked() && nodes == [bt] + old(nodes)
      ensures bt.template == old(bt.template).(expires := 0)
      ensures Entries() == [Entry(bt.key, bt.template)] + old(Entries())
    {
      ghost var ns, es := nodes, Entries();
      bt.next := head;
      bt.template := bt.template.(expires := 0);
      head := bt;
      nodes := [bt] + nodes;
      forall i: nat, j: nat | i < j < |nodes|
        ensures Apart(i, j)
      {
        if i > 0 { assert old(Apart(i - 1, j - 1)); }
      }
      forall i: nat | i < |nodes|
        ensures LinkAt(i)
      {
        if i > 0 { assert old(LinkAt(i - 1)) && nodes[i] == old(nodes)[i - 1]; }
      }
      forall i | 0 < i < |nodes|
        ensures Entries()[i] == es[i - 1]
      {
        assert nodes[i] == ns[i - 1];
      }
    }

    /** Overwriting the template of one node in place changes the map at its key only. */
    lemma {:induction false} Overwritten(es: seq<Entry>, at: nat)
      requires Linked() && |es| == |nodes| && Unique(es) && at < |nodes| && es[at].key == nodes[at].key
      requires forall i :: 0 <= i < |nodes| && i != at ==> es[i] == Entry(nodes[i].key, nodes[i].template)
      ensures Valid() && Contents() == TableOf(es)[nodes[at].key := nodes[at].template]
    {
      assert Entries() == es[at := Entry(nodes[at].key, nodes[at].template)];
      TableUpdate(es, at, nodes[at].template);
    }

    method GetBufferedTemplate(k: Key, now: int) returns (r: BufferedTemplate?, released: bool)
      requires Valid()
      modifies this, nodes`next
      ensures Valid() && (forall n :: n in nodes ==> n in old(nodes))
      ensures Contents() == AfterGet(old(Contents()), k, now)
      ensures r == null <==> k !in Contents()
      ensures var t := old(Contents());
              r != null <==> k in t && (t[k].expires == 0 || now <= t[k].expires)
      ensures r != null ==> r in nodes && r.key == k && r.template == Contents()[k]
      ensures r != null ==> nodes == old(nodes)
      ensures released <==> Contents() != old(Contents())
    {
      InTable(Entries(), k);
      var predecessor, bt, at := Find(k);
      if bt != null {
        assert Entries()[at].key == k;
        TableAt(Entries(), at);
        if bt.template.expires != 0 && bt.template.expires < now {
          released := DestroyBufferedTemplate(k);
          return null, released;
        }
        return bt, false;
      }
      return null, false;
    }
  }
}
