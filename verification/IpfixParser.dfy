/** The parser's own loops over the set, the fields and the records, working on the template list. */
module IpfixParsing {
  import opened Bytes
  import opened Templates
  import opened IpfixMessage

  /** The field loop of processTemplateSet. */
  method ReadFields(m: Memory, p: nat, count: nat) returns (fields: seq<FieldInfo>, record: nat, recordLength: nat)
    ensures fields == ParseFields(m, p, count, 0).0
    ensures record == ParseFields(m, p, count, 0).1 && recordLength == ParseFields(m, p, count, 0).2
  {
    fields, record, recordLength := [], p, 0;
    for fieldNo := 0 to count
      invariant |fields| == fieldNo
      invariant ParseFields(m, p, count, 0).0 == fields + ParseFields(m, record, count - fieldNo, recordLength).0
      invariant ParseFields(m, p, count, 0).1 == ParseFields(m, record, count - fieldNo, recordLength).1
      invariant ParseFields(m, p, count, 0).2 == ParseFields(m, record, count - fieldNo, recordLength).2
    {
      var id, length := Net16(m, record), Net16(m, record + 2);
      var f, next;
      if id >= ENTERPRISE {
        f, next := FieldInfo(id, length, length == VARIABLE, Net32(m, record + 4), recordLength), record + 8;
      } else {
        f, next := FieldInfo(id, length, length == VARIABLE, 0, recordLength), record + 4;
      }
      assert (f, next) == SpecAt(m, record, recordLength);
      fields := fields + [f];
      record := next;
      recordLength := (recordLength + length) % U16;
    }
  }

  /** Whether some field is variable-length; then every offset becomes VARIABLE. */
  method Settle(setId: nat, fields: seq<FieldInfo>, recordLength: nat) returns (t: Template)
    ensures t == Announcement(setId, fields, recordLength)
  {
    var isLengthVarying := false;
    for i := 0 to |fields|
      invariant isLengthVarying <==> exists j :: 0 <= j < i && fields[j].length == VARIABLE
    {
      if fields[i].length == VARIABLE {
        isLengthVarying := true;
      }
    }
    if !isLengthVarying {
      return Template(recordLength, setId, 0, fields);
    }
    var unplaced := [];
    for i := 0 to |fields|
      invariant |unplaced| == i && forall j :: 0 <= j < i ==> unplaced[j] == fields[j].(offset := VARIABLE)
    {
      unplaced := unplaced + [fields[i].(offset := VARIABLE)];
    }
    assert unplaced == Unplaced(fields);
    return Template(VARIABLE, setId, 0, unplaced);
  }

  /** Where a field starts behind its length, and how long it is. */
  method MeasureField(m: Memory, record: nat, recordLength: nat, f: FieldInfo) returns (start: nat, fieldLength: nat)
    ensures FieldAt(m, record + recordLength, f) == (record + start, fieldLength) && start >= recordLength
  {
    start, fieldLength := recordLength, f.length;
    if f.isVariable {
      fieldLength := At(m, record + recordLength);
      start := start + 1;
      if fieldLength == 255 {
        fieldLength := Net16(m, record + start);
        start := start + 2;
      }
    }
  }

  lemma WalkNext(m: Memory, record: nat, fields: seq<FieldInfo>, done: nat, start: nat, length: nat,
                 placed: seq<FieldInfo>)
    returns (rest: seq<FieldInfo>)
    requires fields != [] && start >= done && FieldAt(m, record + done, fields[0]) == (record + start, length)
    ensures rest == fields[1..]
    ensures placed + Walk(m, record, fields, done).0
         == placed + [fields[0].(offset := start % U16, length := length)] + Walk(m, record, rest, start + length).0
    ensures Walk(m, record, fields, done).1 == Walk(m, record, rest, start + length).1
  {
    rest := fields[1..];
    Assoc(placed, [fields[0].(offset := start % U16, length := length)], Walk(m, record, rest, start + length).0);
  }

  /** The field loop over one variable-length record. */
  method WalkRecord(m: Memory, record: nat, fields: seq<FieldInfo>) returns (placed: seq<FieldInfo>, recordLength: nat)
    ensures placed == Walk(m, record, fields, 0).0 && recordLength == Walk(m, record, fields, 0).1
  {
    placed, recordLength := [], 0;
    ghost var rest, whole := fields, Walk(m, record, fields, 0);
    for i := 0 to |fields|
      invariant rest == fields[i..]
      invariant whole.0 == placed + Walk(m, record, rest, recordLength).0
      invariant whole.1 == Walk(m, record, rest, recordLength).1
    {
      var start, fieldLength := MeasureField(m, record, recordLength, fields[i]);
      rest := WalkNext(m, record, rest, recordLength, start, fieldLength, placed);
      placed := placed + [fields[i].(offset := start % U16, length := fieldLength)];
      recordLength := start + fieldLength;
    }
  }

  class IpfixParser {
    const buffer: TemplateBuffer
    /** The callbacks made so far. */
    var events: seq<Event>

    constructor ()
      ensures Valid() && View() == State(map[], []) && fresh(buffer)
    {
      buffer := new TemplateBuffer();
      events := [];
    }

    ghost predicate Valid()
      reads this, buffer, buffer.nodes
    {
      buffer.Valid()
    }

    ghost function View(): State
      reads this, buffer, buffer.nodes
    {
      State(buffer.Contents(), events)
    }

    /** processTemplateSet: the records from p up to end. */
    method ProcessTemplateSet(m: Memory, p: nat, end: nat, sourceId: nat, setId: nat)
      requires Valid()
      modifies this, buffer, buffer.nodes
      ensures Valid() && fresh(set n | n in buffer.nodes && n !in old(buffer.nodes))
      ensures View() == TemplateSet(m, p, end, sourceId, setId, old(View()))
    {
      var record := p;
      while record + 3 < end
        invariant Valid() && fresh(set n | n in buffer.nodes && n !in old(buffer.nodes))
        invariant TemplateSet(m, record, end, sourceId, setId, View())
                  == TemplateSet(m, p, end, sourceId, setId, old(View()))
        decreases end - record
      {
        record := ProcessTemplateRecord(m, record, sourceId, setId);
      }
    }

    method ProcessTemplateRecord(m: Memory, p: nat, sourceId: nat, setId: nat) returns (record: nat)
      requires Valid()
      modifies this, buffer, buffer.nodes
      ensures Valid() && fresh(set n | n in buffer.nodes && n !in old(buffer.nodes))
      ensures (View(), record) == TemplateRecordAt(m, p, sourceId, setId, old(View()))
    {
      var k := Key(sourceId, Net16(m, p));
      var fieldCount := Net16(m, p + 2);
      record := p + 4;
      var released;
      if fieldCount == 0 {
        released := buffer.DestroyBufferedTemplate(k);
        events := events + if released then [Destroyed(k)] else [];
        return;
      }
      var fields, recordLength;
      fields, record, recordLength := ReadFields(m, record, fieldCount);
      var t := Settle(setId, fields, recordLength);
      Install(k, t);
    }

    /** bufferTemplate and the template callback. */
    method Install(k: Key, t: Template)
      requires Valid() && t.expires == 0
      modifies this, buffer, buffer.nodes
      ensures Valid() && fresh(set n | n in buffer.nodes && n !in old(buffer.nodes))
      ensures View() == Announce(old(View()), k, t)
    {
      var bt := new BufferedTemplate(k, t);
      var released := buffer.BufferTemplate(bt);
      events := events + (if released then [Destroyed(k)] else []) + [Announced(k, t.fields)];
    }

    /** The loop over fixed-length records; ends is false where the program would never leave it. */
    method ProcessFixed(m: Memory, start: nat, recordX: nat, k: Key, t: Template) returns (ends: bool)
      modifies this`events
      ensures ends == FixedRecords(m, start, recordX, k, t).0
      ensures ends ==> events == old(events) + FixedRecords(m, start, recordX, k, t).1
    {
      var record := start;
      ghost var done: seq<Event> := [];
      while record + t.recordLength <= recordX
        invariant events == old(events) + done
        invariant FixedRecords(m, start, recordX, k, t).0 == FixedRecords(m, record, recordX, k, t).0
        invariant FixedRecords(m, start, recordX, k, t).1 == done + FixedRecords(m, record, recordX, k, t).1
        decreases recordX - record
      {
        if t.recordLength == 0 {
          return false;
        }
        var e := Record(k, t.recordLength, Values(m, record, t.fields));
        Assoc(old(events), done, [e]);
        Assoc(done, [e], FixedRecords(m, record + t.recordLength, recordX, k, t).1);
        events := events + [e];
        done := done + [e];
        record := record + t.recordLength;
      }
      return true;
    }

    /** The loop over variable-length records, which overwrites the template's field infos. */
    method ProcessVariable(m: Memory, start: nat, recordX: nat, bt: BufferedTemplate) returns (ends: bool)
      modifies this`events, bt`template
      ensures ends == VariableRecords(m, start, recordX, bt.key, old(bt.template.fields)).0
      ensures bt.template
              == old(bt.template).(fields := VariableRecords(m, start, recordX, bt.key, old(bt.template.fields)).1)
      ensures ends ==> events == old(events) + VariableRecords(m, start, recordX, bt.key, old(bt.template.fields)).2
    {
      var record := start;
      ghost var whole := VariableRecords(m, start, recordX, bt.key, bt.template.fields);
      ghost var rest, done := whole, [];
      assert done + whole.2 == whole.2;
      while record + 3 < recordX
        invariant bt.template == old(bt.template).(fields := bt.template.fields)
        invariant events == old(events) + done
        invariant rest == VariableRecords(m, record, recordX, bt.key, bt.template.fields)
        invariant whole == (rest.0, rest.1, done + rest.2)
        decreases recordX - record
      {
        var placed, recordLength := WalkRecord(m, record, bt.template.fields);
        bt.template := bt.template.(fields := placed);
        if recordLength == 0 {
          return false;
        }
        var e := Record(bt.key, recordLength % U16, Values(m, record, placed));
        ghost var next := VariableRecords(m, record + recordLength, recordX, bt.key, placed);
        Continues(whole, done, rest, e, next);
        events := events + [e];
        rest, done := next, done + [e];
        record := record + recordLength;
      }
      return true;
    }

    /** Unfolding the record loop once keeps the relation between what is done and what remains. */
    lemma Continues(whole: (bool, seq<FieldInfo>, seq<Event>), done: seq<Event>,
                    rest: (bool, seq<FieldInfo>, seq<Event>),
                    e: Event, next: (bool, seq<FieldInfo>, seq<Event>))
      requires whole == (rest.0, rest.1, done + rest.2)
      requires rest == (next.0, next.1, [e] + next.2)
      ensures whole == (next.0, next.1, (done + [e]) + next.2)
    {
      Assoc(done, [e], next.2);
    }

    /** The same for a template in the list: the map changes at its key only. */
    method ProcessListed(m: Memory, start: nat, recordX: nat, bt: BufferedTemplate) returns (ends: bool)
      requires Valid() && bt in buffer.nodes
      modifies this`events, bt`template
      ensures Valid()
      ensures ends == VariableRecords(m, start, recordX, bt.key, old(bt.template.fields)).0
      ensures buffer.Contents()
              == old(buffer.Contents())[bt.key := old(bt.template).(
                   fields := VariableRecords(m, start, recordX, bt.key, old(bt.template.fields)).1)]
      ensures ends ==> events == old(events) + VariableRecords(m, start, recordX, bt.key, old(bt.template.fields)).2
    {
      ghost var es := buffer.Entries();
      ghost var at :| 0 <= at < |buffer.nodes| && buffer.nodes[at] == bt;
      assert forall i :: 0 <= i < |es| && i != at ==> es[i].key != es[at].key;
      ends := ProcessVariable(m, start, recordX, bt);
      buffer.Overwritten(es, at);
    }

    /** What the lookup of the template leaves. */
    static function Looked(s: State, k: Key, now: int): State {
      var table := AfterGet(s.table, k, now);
      State(table, if table == s.table then s.events else s.events + [Destroyed(k)])
    }

    /** What becomes of a data set with its template, from that state. */
    static function Cut(m: Memory, p: nat, k: Key, s: State): Outcome
      requires k in s.table
    {
      var t, end := s.table[k], p + 4 + (Net16(m, p + 2) + U16 - 4) % U16;
      if t.setId != SET_TEMPLATE && t.setId != 0 then OutOfScope
      else if t.recordLength < VARIABLE then
        var (ends, es) := FixedRecords(m, p + 4, end, k, t);
        if ends then Done(s.(events := s.events + es)) else Loops
      else
        var (ends, left, es) := VariableRecords(m, p + 4, end, k, t.fields);
        if ends then Done(State(s.table[k := t.(fields := left)], s.events + es)) else Loops
    }

    static lemma DataSetIs(m: Memory, p: nat, sourceId: nat, now: int, s: State, s': State, k: Key)
      requires k == Key(sourceId, Net16(m, p)) && s' == Looked(s, k, now)
      ensures DataSet(m, p, sourceId, now, s) == if k in s'.table then Cut(m, p, k, s') else Done(s')
    {
    }

    /** The part of processDataSet that has found the template. */
    method CutSet(m: Memory, p: nat, k: Key, bt: BufferedTemplate) returns (ends: bool, covered: bool)
      requires Valid() && bt in buffer.nodes && bt.key == k
      requires k in buffer.Contents() && buffer.Contents()[k] == bt.template
      modifies this`events, bt`template
      ensures Valid()
      ensures var r := Cut(m, p, k, old(View()));
              (r.Loops? <==> !ends) && (r.OutOfScope? <==> !covered) && (r.Done? ==> View() == r.state)
    {
      var t := bt.template;
      if t.setId != SET_TEMPLATE && t.setId != 0 {
        return true, false;
      }
      var length := (Net16(m, p + 2) + U16 - 4) % U16;
      if t.recordLength < VARIABLE {
        ends := ProcessFixed(m, p + 4, p + 4 + length, k, t);
      } else {
        ends := ProcessListed(m, p + 4, p + 4 + length, bt);
      }
      return ends, true;
    }

    /**
     * processDataSet; ends is false where the program would not return, covered where the set is
     * of a modelled kind.
     */
    method ProcessDataSet(m: Memory, p: nat, sourceId: nat, now: int) returns (ends: bool, covered: bool)
      requires Valid()
      modifies this, buffer, buffer.nodes
      ensures Valid() && (forall n :: n in buffer.nodes ==> n in old(buffer.nodes))
      ensures var r := DataSet(m, p, sourceId, now, old(View()));
              (r.Loops? <==> !ends) && (r.OutOfScope? <==> !covered) && (r.Done? ==> View() == r.state)
    {
      var k := Key(sourceId, Net16(m, p));
      ghost var s := View();
      var bt, released := buffer.GetBufferedTemplate(k, now);
      if released {
        events := events + [Destroyed(k)];
      }
      DataSetIs(m, p, sourceId, now, s, View(), k);
      if bt == null {
        return true, true;
      }
      ends, covered := CutSet(m, p, k, bt);
    }

    /** One set at p, as processIpfixPacket dispatches on its id. */
    method ProcessSet(m: Memory, p: nat, sourceId: nat, now: int) returns (ends: bool, covered: bool)
      requires Valid()
      modifies this, buffer, buffer.nodes
      ensures Valid() && fresh(set n | n in buffer.nodes && n !in old(buffer.nodes))
      ensures var r := SetAt(m, p, sourceId, now, old(View()));
              (r.Loops? <==> !ends) && (r.OutOfScope? <==> !covered) && (r.Done? ==> View() == r.state)
    {
      var id := Net16(m, p);
      if id == SET_TEMPLATE {
        ProcessTemplateSet(m, p + 4, p + Net16(m, p + 2), sourceId, id);
        return true, true;
      } else if id == 3 || id == 4 {
        return true, false;
      } else if id >= SET_DATA_START {
        ends, covered := ProcessDataSet(m, p, sourceId, now);
        return;
      }
      return true, true;
    }

    /** One pass of the set loop. */
    lemma SetsNext(m: Memory, p: nat, length: nat, sourceId: nat, now: int, s: State, o: Outcome)
      requires p < length && o == SetAt(m, p, sourceId, now, s)
      ensures Sets(m, p, length, sourceId, now, s)
              == if !o.Done? then o
                 else if Net16(m, p + 2) == 0 then Loops
                 else Sets(m, p + Net16(m, p + 2), length, sourceId, now, o.state)
    {
    }

    /** processIpfixPacket. */
    method ProcessPacket(m: Memory, length: nat, now: int) returns (r: int, ends: bool, covered: bool)
      requires Valid()
      modifies this, buffer, buffer.nodes
      ensures Valid() && fresh(set n | n in buffer.nodes && n !in old(buffer.nodes))
      ensures var o := Process(m, length, now, old(View()));
              && (r == if o.Rejected? then -1 else 0)
              && (o.Loops? <==> !ends) && (o.OutOfScope? <==> !covered)
              && (o.Done? ==> View() == o.state) && (o.Rejected? ==> View() == old(View()))
    {
      if Net16(m, 2) != length {
        return -1, true, true;
      }
      var sourceId := Net32(m, 12);
      var p := 16;
      ghost var s := View();
      ghost var whole := Sets(m, 16, length, sourceId, now, s);
      while p < length
        invariant Valid() && fresh(set n | n in buffer.nodes && n !in old(buffer.nodes))
        invariant s == View() && Sets(m, p, length, sourceId, now, s) == whole
        decreases length - p
      {
        ends, covered := ProcessSet(m, p, sourceId, now);
        ghost var o := SetAt(m, p, sourceId, now, s);
        SetsNext(m, p, length, sourceId, now, s, o);
        s := View();
        if !ends || !covered {
          return 0, ends, covered;
        }
        if Net16(m, p + 2) == 0 {
          return 0, false, true;
        }
        p := p + Net16(m, p + 2);
      }
      return 0, true, true;
    }
  }
}
