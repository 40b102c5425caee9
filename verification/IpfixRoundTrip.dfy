/**
 * Messages encoded as RFC 7011 lays down (sections 3.1, 3.2, 3.4.1, 3.4.3 and 7), and
 * the proof that processing such a message reports exactly what was encoded.
 */
module IpfixRoundTrip {
  import opened Bytes
  import opened Templates
  import opened IpfixMessage

  // ---------------------------------------------------------------- the encoding

  /** A field specifier; ids from ENTERPRISE on carry the enterprise bit and a number. */
  datatype FieldSpec = FieldSpec(id: nat, length: nat, eid: nat) {
    predicate Valid() {
      id < U16 && length < U16 && eid < U32 && (id < ENTERPRISE ==> eid == 0)
    }

    predicate Variable() { length == VARIABLE }
  }

  /** A field value; long selects the three-octet form of the length of a variable-length field. */
  datatype Value = Value(octets: seq<byte>, long: bool)

  datatype TemplateRecord =
    | Announcing(templateId: nat, specs: seq<FieldSpec>)
    | Withdrawing(templateId: nat)

  datatype MessageSet =
    | TemplateRecords(records: seq<TemplateRecord>, padding: seq<byte>)
    | DataRecords(templateId: nat, rows: seq<seq<Value>>, padding: seq<byte>)
    | Unknown(setId: nat, octets: seq<byte>)

  function EncodeSpec(f: FieldSpec): (r: seq<byte>)
    requires f.Valid()
    ensures |r| == if f.id >= ENTERPRISE then 8 else 4
  {
    Put16(f.id) + Put16(f.length) + if f.id >= ENTERPRISE then Put32(f.eid) else []
  }

  predicate ValidSpecs(specs: seq<FieldSpec>) {
    specs == [] || (specs[0].Valid() && ValidSpecs(specs[1..]))
  }

  function EncodeSpecs(specs: seq<FieldSpec>): seq<byte>
    requires ValidSpecs(specs)
  {
    if specs == [] then [] else EncodeSpec(specs[0]) + EncodeSpecs(specs[1..])
  }

  predicate AnyVariable(specs: seq<FieldSpec>) {
    specs != [] && (specs[0].Variable() || AnyVariable(specs[1..]))
  }

  function TotalLength(specs: seq<FieldSpec>): nat {
    if specs == [] then 0 else specs[0].length + TotalLength(specs[1..])
  }

  predicate ValidTemplate(specs: seq<FieldSpec>) {
    0 < |specs| < U16 && ValidSpecs(specs)
  }

  predicate ValidRecord(r: TemplateRecord) {
    r.templateId < U16 && (r.Announcing? ==> ValidTemplate(r.specs))
  }

  function EncodeRecord(r: TemplateRecord): (e: seq<byte>)
    requires ValidRecord(r)
    ensures |e| >= 4
  {
    match r
    case Announcing(id, specs) => Put16(id) + Put16(|specs|) + EncodeSpecs(specs)
    case Withdrawing(id) => Put16(id) + Put16(0)
  }

  predicate ValidRecords(rs: seq<TemplateRecord>) {
    rs == [] || (ValidRecord(rs[0]) && ValidRecords(rs[1..]))
  }

  function EncodeRecords(rs: seq<TemplateRecord>): seq<byte>
    requires ValidRecords(rs)
  {
    if rs == [] then [] else EncodeRecord(rs[0]) + EncodeRecords(rs[1..])
  }

  predicate ValidValue(f: FieldSpec, v: Value) {
    if f.Variable() then |v.octets| < U16 && (!v.long ==> |v.octets| < 255) else |v.octets| == f.length
  }

  function EncodeValue(f: FieldSpec, v: Value): seq<byte>
    requires ValidValue(f, v)
  {
    if !f.Variable() then v.octets
    else if v.long then [255 as byte] + Put16(|v.octets|) + v.octets
    else [|v.octets| as byte] + v.octets
  }

  predicate ValidRow(specs: seq<FieldSpec>, row: seq<Value>) {
    |row| == |specs| && (row == [] || (ValidValue(specs[0], row[0]) && ValidRow(specs[1..], row[1..])))
  }

  function EncodeRow(specs: seq<FieldSpec>, row: seq<Value>): seq<byte>
    requires ValidRow(specs, row)
  {
    if row == [] then [] else EncodeValue(specs[0], row[0]) + EncodeRow(specs[1..], row[1..])
  }

  predicate ValidRows(specs: seq<FieldSpec>, rows: seq<seq<Value>>) {
    rows == [] || (ValidRow(specs, rows[0]) && ValidRows(specs, rows[1..]))
  }

  function EncodeRows(specs: seq<FieldSpec>, rows: seq<seq<Value>>): seq<byte>
    requires ValidRows(specs, rows)
  {
    if rows == [] then [] else EncodeRow(specs, rows[0]) + EncodeRows(specs, rows[1..])
  }

  /** The last row and the padding together are longer than the three octets the record loop leaves alone. */
  predicate Ample(specs: seq<FieldSpec>, rows: seq<seq<Value>>, padding: nat)
    requires ValidRows(specs, rows)
  {
    rows == [] || (if |rows| == 1 then |EncodeRow(specs, rows[0])| + padding >= 4 else Ample(specs, rows[1..], padding))
  }

  /**
   * The data sets the program cuts into their records: with variable-length fields at most
   * three octets of padding, and enough of them behind a short last record; otherwise less
   * padding than a record, whose length is kept in 16 bits and must not be 0, and 65535
   * stands for a variable one.
   */
  predicate Cuttable(specs: seq<FieldSpec>, rows: seq<seq<Value>>, padding: nat)
    requires ValidRows(specs, rows)
  {
    var length := TotalLength(specs) % U16;
    if AnyVariable(specs) then padding <= 3 && Ample(specs, rows, padding)
    else if length == VARIABLE then padding <= 3
    else padding < length
  }

  // ---------------------------------------------------------------- memory holding an encoding

  /** The octets e lie in memory from p on. */
  ghost predicate Holds(m: Memory, p: nat, e: seq<byte>) {
    p + |e| <= |m| && forall i :: 0 <= i < |e| ==> m[p + i] == e[i]
  }

  lemma HoldsParts(m: Memory, p: nat, a: seq<byte>, b: seq<byte>)
    requires Holds(m, p, a + b)
    ensures Holds(m, p, a) && Holds(m, p + |a|, b)
  {
    forall i | 0 <= i < |a|
      ensures m[p + i] == a[i]
    {
      assert (a + b)[i] == a[i];
    }
    forall i | 0 <= i < |b|
      ensures m[p + |a| + i] == b[i]
    {
      assert (a + b)[|a| + i] == b[i];
    }
  }

  lemma HoldsBoth(m: Memory, p: nat, whole: seq<byte>, a: seq<byte>, b: seq<byte>)
    requires whole == a + b && Holds(m, p, whole)
    ensures Holds(m, p, a) && Holds(m, p + |a|, b)
  {
    HoldsParts(m, p, a, b);
  }

  lemma HoldsOctet(m: Memory, p: nat, e: seq<byte>, i: nat)
    requires Holds(m, p, e) && i < |e|
    ensures At(m, p + i) == e[i] as nat
  {
    assert m[p..p + |e|][i] == m[p + i];
  }

  lemma HoldsWhole(p: nat, front: seq<byte>, e: seq<byte>, behind: seq<byte>)
    requires |front| == p
    ensures Holds(front + e + behind, p, e)
  {
  }

  lemma Holds16(m: Memory, p: nat, n: nat)
    requires n < U16 && Holds(m, p, Put16(n))
    ensures Net16(m, p) == n
  {
    HoldsOctet(m, p, Put16(n), 0);
    HoldsOctet(m, p, Put16(n), 1);
  }

  lemma Holds32(m: Memory, p: nat, n: nat)
    requires n < U32 && Holds(m, p, Put32(n))
    ensures Net32(m, p) == n
  {
    HoldsParts(m, p, Put16(n / U16), Put16(n % U16));
    Holds16(m, p, n / U16);
    Holds16(m, p + 2, n % U16);
  }

  lemma HoldsSlice(m: Memory, p: nat, e: seq<byte>)
    requires Holds(m, p, e)
    ensures Slice(m, p, |e|) == e
  {
    forall i | 0 <= i < |e|
      ensures Slice(m, p, |e|)[i] == e[i]
    {
      HoldsOctet(m, p, e, i);
    }
  }

  // ---------------------------------------------------------------- template records

  function Info(f: FieldSpec, offset: nat): FieldInfo {
    FieldInfo(f.id, f.length, f.Variable(), f.eid, offset)
  }

  /** Field infos with offsets summed up from `offset`, as the field loop leaves them. */
  function Infos(specs: seq<FieldSpec>, offset: nat): (r: seq<FieldInfo>)
    ensures |r| == |specs|
  {
    if specs == [] then [] else [Info(specs[0], offset)] + Infos(specs[1..], (offset + specs[0].length) % U16)
  }

  /** The template an announcement puts into force. */
  function Announces(specs: seq<FieldSpec>): Template {
    Announcement(SET_TEMPLATE, Infos(specs, 0), TotalLength(specs) % U16)
  }

  /** The first field specifier, and where the others start. */
  lemma FirstSpec(m: Memory, p: nat, specs: seq<FieldSpec>, offset: nat) returns (q: nat)
    requires specs != [] && ValidSpecs(specs) && Holds(m, p, EncodeSpecs(specs))
    ensures q == p + |EncodeSpecs(specs)| - |EncodeSpecs(specs[1..])| && Holds(m, q, EncodeSpecs(specs[1..]))
    ensures SpecAt(m, p, offset) == (Info(specs[0], offset), q)
  {
    var e, rest, whole := EncodeSpec(specs[0]), EncodeSpecs(specs[1..]), EncodeSpecs(specs);
    HoldsBoth(m, p, whole, e, rest);
    SpecParses(m, p, specs[0]);
    q := p + |e|;
  }

  /** The field loop finds the announced fields, stops behind them and sums up their lengths. */
  lemma {:induction false} FieldsParse(m: Memory, p: nat, specs: seq<FieldSpec>, offset: nat)
    returns (fields: seq<FieldInfo>, end: nat, total: nat)
    requires ValidSpecs(specs) && Holds(m, p, EncodeSpecs(specs)) && offset < U16
    ensures ParseFields(m, p, |specs|, offset) == (fields, end, total)
    ensures fields == Infos(specs, offset) && end == p + |EncodeSpecs(specs)|
    ensures total == (offset + TotalLength(specs)) % U16
    decreases |specs|
  {
    if specs == [] {
      fields, end, total := [], p, offset;
    } else {
      var next := (offset + specs[0].length) % U16;
      var q := FirstSpec(m, p, specs, offset);
      fields, end, total := FieldsParse(m, q, specs[1..], next);
      fields := FieldMore(m, p, specs[0], |specs|, offset, q, next, fields, end, total);
      ModAdds(offset + specs[0].length, TotalLength(specs[1..]), next);
    }
  }

  lemma FieldMore(m: Memory, p: nat, f: FieldSpec, count: nat, offset: nat, q: nat, next: nat,
                  fields: seq<FieldInfo>, end: nat, total: nat) returns (all: seq<FieldInfo>)
    requires count > 0 && next == (offset + f.length) % U16 && SpecAt(m, p, offset) == (Info(f, offset), q)
    requires ParseFields(m, q, count - 1, next) == (fields, end, total)
    ensures all == [Info(f, offset)] + fields && ParseFields(m, p, count, offset) == (all, end, total)
  {
    all := [Info(f, offset)] + fields;
  }

  lemma ModAdds(a: nat, b: nat, c: nat)
    requires c == a % U16
    ensures (c + b) % U16 == (a + b) % U16
  {
  }

  lemma SpecParses(m: Memory, p: nat, f: FieldSpec)
    requires f.Valid() && Holds(m, p, EncodeSpec(f))
    ensures Net16(m, p) == f.id && Net16(m, p + 2) == f.length
    ensures f.id >= ENTERPRISE ==> Net32(m, p + 4) == f.eid
    ensures forall offset :: SpecAt(m, p, offset) == (Info(f, offset), p + |EncodeSpec(f)|)
  {
    var tail := if f.id >= ENTERPRISE then Put32(f.eid) else [];
    HoldsParts(m, p, Put16(f.id) + Put16(f.length), tail);
    HoldsParts(m, p, Put16(f.id), Put16(f.length));
    Holds16(m, p, f.id);
    Holds16(m, p + 2, f.length);
    if f.id >= ENTERPRISE { Holds32(m, p + 4, f.eid); }
  }

  // ---------------------------------------------------------------- data records

  function Octets(row: seq<Value>): (r: seq<seq<byte>>)
    ensures |r| == |row|
  {
    if row == [] then [] else [row[0].octets] + Octets(row[1..])
  }

  /** Whatever a template's field infos were left at by earlier records, these are theirs. */
  ghost predicate Fits(fields: seq<FieldInfo>, specs: seq<FieldSpec>) {
    && |fields| == |specs|
    && (specs == [] ||
        (&& fields[0].id == specs[0].id && fields[0].eid == specs[0].eid
         && fields[0].isVariable == specs[0].Variable()
         && (!specs[0].Variable() ==> fields[0].length == specs[0].length)
         && Fits(fields[1..], specs[1..])))
  }

  lemma {:induction false} RowIs(specs: seq<FieldSpec>, row: seq<Value>)
    requires specs != [] && ValidRow(specs, row)
    ensures row != [] && ValidValue(specs[0], row[0]) && ValidRow(specs[1..], row[1..])
    ensures EncodeRow(specs, row) == EncodeValue(specs[0], row[0]) + EncodeRow(specs[1..], row[1..])
  {
  }

  /** The first value of a row, and where the others start. */
  lemma {:induction false} FirstValue(m: Memory, p: nat, specs: seq<FieldSpec>, row: seq<Value>)
    requires specs != [] && ValidRow(specs, row) && Holds(m, p, EncodeRow(specs, row))
    ensures var e, rest := EncodeValue(specs[0], row[0]), EncodeRow(specs[1..], row[1..]);
            Holds(m, p, e) && Holds(m, p + |e|, rest) && |EncodeRow(specs, row)| == |e| + |rest|
  {
    RowIs(specs, row);
    var e, rest, whole := EncodeValue(specs[0], row[0]), EncodeRow(specs[1..], row[1..]), EncodeRow(specs, row);
    HoldsBoth(m, p, whole, e, rest);
  }

  lemma FixedValue(f: FieldSpec, v: Value)
    requires ValidValue(f, v) && !f.Variable()
    ensures EncodeValue(f, v) == v.octets && |v.octets| == f.length
  {
  }

  lemma {:induction false} FirstFixed(m: Memory, p: nat, specs: seq<FieldSpec>, row: seq<Value>)
    requires specs != [] && ValidRow(specs, row) && !specs[0].Variable() && Holds(m, p, EncodeRow(specs, row))
    ensures Slice(m, p, specs[0].length) == row[0].octets
    ensures Holds(m, p + specs[0].length, EncodeRow(specs[1..], row[1..]))
    ensures |EncodeRow(specs, row)| == specs[0].length + |EncodeRow(specs[1..], row[1..])|
  {
    FixedValue(specs[0], row[0]);
    FirstValue(m, p, specs, row);
    HoldsSlice(m, p, row[0].octets);
  }

  /** Fixed-length records: each offset is the sum of the lengths before it, and the slices tile the record. */
  lemma {:induction false} FixedRowReads(m: Memory, record: nat, specs: seq<FieldSpec>, row: seq<Value>, offset: nat)
    requires ValidRow(specs, row) && !AnyVariable(specs) && offset + TotalLength(specs) < U16
    requires Holds(m, record + offset, EncodeRow(specs, row))
    ensures |EncodeRow(specs, row)| == TotalLength(specs)
    ensures Values(m, record, Infos(specs, offset)) == Octets(row)
    decreases |specs|
  {
    if specs != [] {
      var next := offset + specs[0].length;
      FirstFixed(m, record + offset, specs, row);
      FixedRowReads(m, record, specs[1..], row[1..], next);
      FixedStep(m, record, specs, row, offset, next);
    }
  }

  lemma {:induction false} FixedStep(m: Memory, record: nat, specs: seq<FieldSpec>, row: seq<Value>, offset: nat,
                                     next: nat)
    requires specs != [] && row != [] && next == offset + specs[0].length < U16
    requires Slice(m, record + offset, specs[0].length) == row[0].octets
    requires Values(m, record, Infos(specs[1..], next)) == Octets(row[1..])
    ensures Values(m, record, Infos(specs, offset)) == Octets(row)
  {
    ValuesCons(m, record, Info(specs[0], offset), Infos(specs[1..], next));
  }

  lemma {:induction false} ValuesCons(m: Memory, record: nat, first: FieldInfo, rest: seq<FieldInfo>)
    ensures Values(m, record, [first] + rest)
            == [Slice(m, record + first.offset, first.length)] + Values(m, record, rest)
  {
    assert ([first] + rest)[1..] == rest;
  }

  /** The walk never changes what a field is, only where it lies and, if variable, how long it is. */
  lemma {:induction false} WalkFits(m: Memory, record: nat, fields: seq<FieldInfo>, specs: seq<FieldSpec>, done: nat)
    requires Fits(fields, specs)
    ensures Fits(Walk(m, record, fields, done).0, specs)
    decreases |specs|
  {
    if specs != [] {
      var (start, length) := FieldAt(m, record + done, fields[0]);
      WalkFits(m, record, fields[1..], specs[1..], start - record + length);
      var rest := Walk(m, record, fields[1..], start - record + length).0;
      var first := fields[0].(offset := (start - record) % U16, length := length);
      assert ([first] + rest)[1..] == rest;
    }
  }

  /** The placed fields show the values of the row. */
  ghost predicate Shows(m: Memory, record: nat, placed: seq<FieldInfo>, row: seq<Value>) {
    && |placed| == |row|
    && (row == [] || (Slice(m, record + placed[0].offset, placed[0].length) == row[0].octets
                      && Shows(m, record, placed[1..], row[1..])))
  }

  lemma {:induction false} ShownValues(m: Memory, record: nat, placed: seq<FieldInfo>, row: seq<Value>)
    requires Shows(m, record, placed, row)
    ensures Values(m, record, placed) == Octets(row)
  {
    if row != [] { ShownValues(m, record, placed[1..], row[1..]); }
  }

  /** Variable-length records: the walk finds both forms of the length, and each value behind its own. */
  lemma {:induction false} WalkReads(m: Memory, record: nat, fields: seq<FieldInfo>, specs: seq<FieldSpec>,
                                     row: seq<Value>, done: nat)
    returns (placed: seq<FieldInfo>, length: nat)
    requires ValidRow(specs, row) && Fits(fields, specs)
    requires Holds(m, record + done, EncodeRow(specs, row)) && done + |EncodeRow(specs, row)| < U16
    ensures Walk(m, record, fields, done) == (placed, length) && length == done + |EncodeRow(specs, row)|
    ensures Shows(m, record, placed, row)
    decreases |specs|
  {
    if specs == [] {
      placed, length := [], done;
    } else {
      FirstValue(m, record + done, specs, row);
      var first, next := WalkStep(m, record, fields, specs[0], row[0], done);
      placed, length := WalkReads(m, record, fields[1..], specs[1..], row[1..], next);
      placed := WalkMore(m, record, row, first, placed);
    }
  }

  lemma WalkMore(m: Memory, record: nat, row: seq<Value>, first: FieldInfo, rest: seq<FieldInfo>)
    returns (placed: seq<FieldInfo>)
    requires row != [] && Slice(m, record + first.offset, first.length) == row[0].octets
             && Shows(m, record, rest, row[1..])
    ensures placed == [first] + rest && Shows(m, record, placed, row)
  {
    placed := [first] + rest;
    assert placed[1..] == rest;
  }

  /** The first field of the walk. */
  lemma WalkStep(m: Memory, record: nat, fields: seq<FieldInfo>, f: FieldSpec, v: Value, done: nat)
    returns (first: FieldInfo, next: nat)
    requires fields != [] && ValidValue(f, v) && Holds(m, record + done, EncodeValue(f, v))
    requires fields[0].isVariable == f.Variable() && (!f.Variable() ==> fields[0].length == f.length)
    requires done + |EncodeValue(f, v)| < U16
    ensures next == done + |EncodeValue(f, v)| && Slice(m, record + first.offset, first.length) == v.octets
    ensures Walk(m, record, fields, done)
            == ([first] + Walk(m, record, fields[1..], next).0, Walk(m, record, fields[1..], next).1)
  {
    FieldReads(m, record + done, fields[0], f, v);
    next := done + |EncodeValue(f, v)|;
    first := fields[0].(offset := next - |v.octets|, length := |v.octets|);
  }

  lemma FieldReads(m: Memory, p: nat, g: FieldInfo, f: FieldSpec, v: Value)
    requires ValidValue(f, v) && Holds(m, p, EncodeValue(f, v))
    requires g.isVariable == f.Variable() && (!f.Variable() ==> g.length == f.length)
    ensures FieldAt(m, p, g) == (p + |EncodeValue(f, v)| - |v.octets|, |v.octets|)
    ensures Slice(m, p + |EncodeValue(f, v)| - |v.octets|, |v.octets|) == v.octets
  {
    ValueReads(m, p, f, v);
  }

  lemma ValueReads(m: Memory, p: nat, f: FieldSpec, v: Value)
    requires ValidValue(f, v) && Holds(m, p, EncodeValue(f, v))
    ensures Slice(m, p + |EncodeValue(f, v)| - |v.octets|, |v.octets|) == v.octets
    ensures f.Variable() && v.long ==> At(m, p) == 255 && Net16(m, p + 1) == |v.octets|
    ensures f.Variable() && !v.long ==> At(m, p) == |v.octets|
  {
    if !f.Variable() {
      HoldsSlice(m, p, v.octets);
    } else if v.long {
      HoldsParts(m, p, [255 as byte] + Put16(|v.octets|), v.octets);
      HoldsParts(m, p, [255 as byte], Put16(|v.octets|));
      HoldsOctet(m, p, [255 as byte], 0);
      Holds16(m, p + 1, |v.octets|);
      HoldsSlice(m, p + 3, v.octets);
    } else {
      HoldsParts(m, p, [|v.octets| as byte], v.octets);
      HoldsOctet(m, p, [|v.octets| as byte], 0);
      HoldsSlice(m, p + 1, v.octets);
    }
  }

  // ---------------------------------------------------------------- record loops

  /** What the rows of a data set are reported as. */
  function RowEvents(k: Key, specs: seq<FieldSpec>, rows: seq<seq<Value>>): (es: seq<Event>)
    requires ValidRows(specs, rows)
    ensures |es| == |rows|
  {
    if rows == [] then []
    else [Record(k, |EncodeRow(specs, rows[0])|, Octets(rows[0]))] + RowEvents(k, specs, rows[1..])
  }

  /** The loop over fixed-length records reports the rows and goes on behind them. */
  lemma {:induction false} FixedLoop(m: Memory, p: nat, q: nat, end: nat, k: Key, specs: seq<FieldSpec>,
                                     rows: seq<seq<Value>>, t: Template)
    requires ValidRows(specs, rows) && !AnyVariable(specs) && 1 <= TotalLength(specs) < VARIABLE
    requires t.fields == Infos(specs, 0) && t.recordLength == TotalLength(specs)
    requires Holds(m, p, EncodeRows(specs, rows)) && q == p + |EncodeRows(specs, rows)| <= end
    ensures FixedRecords(m, p, end, k, t).0 == FixedRecords(m, q, end, k, t).0
    ensures FixedRecords(m, p, end, k, t).1 == RowEvents(k, specs, rows) + FixedRecords(m, q, end, k, t).1
    decreases |rows|
  {
    if rows != [] {
      var length := FirstRow(m, p, specs, rows);
      FixedRowReads(m, p, specs, rows[0], 0);
      FixedLoop(m, p + length, q, end, k, specs, rows[1..], t);
      Assoc([Record(k, length, Octets(rows[0]))], RowEvents(k, specs, rows[1..]), FixedRecords(m, q, end, k, t).1);
    }
  }

  /** The loop over variable-length records reports ample rows and goes on behind them. */
  lemma {:induction false} VariableLoop(m: Memory, p: nat, q: nat, end: nat, k: Key, specs: seq<FieldSpec>,
                                        rows: seq<seq<Value>>, fields: seq<FieldInfo>)
    returns (placed: seq<FieldInfo>)
    requires ValidRows(specs, rows) && AnyVariable(specs) && Fits(fields, specs)
    requires Holds(m, p, EncodeRows(specs, rows)) && q == p + |EncodeRows(specs, rows)| <= end < p + U16
    requires Ample(specs, rows, end - q)
    ensures Fits(placed, specs)
    ensures Continues(VariableRecords(m, p, end, k, fields), RowEvents(k, specs, rows),
                      VariableRecords(m, q, end, k, placed))
    decreases |rows|
  {
    if rows == [] {
      placed := fields;
      assert [] + VariableRecords(m, p, end, k, fields).2 == VariableRecords(m, p, end, k, fields).2;
    } else {
      var length := FirstRow(m, p, specs, rows);
      AmpleMore(m, p, specs, rows, end - q);
      var first := VariableStep(m, p, specs, rows[0], fields, length);
      placed := VariableLoop(m, p + length, q, end, k, specs, rows[1..], first);
      VariableMore(m, p, end, k, fields, first, length, Octets(rows[0]), RowEvents(k, specs, rows[1..]),
                   VariableRecords(m, q, end, k, placed));
    }
  }

  /** The outcome r of the record loop is that of a later pass, with the events es before it. */
  ghost predicate Continues(r: (bool, seq<FieldInfo>, seq<Event>), es: seq<Event>,
                            later: (bool, seq<FieldInfo>, seq<Event>))
  {
    r == (later.0, later.1, es + later.2)
  }

  /** A record with a variable-length field takes an octet at least. */
  lemma {:induction false} RowTakesRoom(specs: seq<FieldSpec>, row: seq<Value>)
    requires ValidRow(specs, row) && AnyVariable(specs)
    ensures |EncodeRow(specs, row)| >= 1
  {
    if !specs[0].Variable() { RowTakesRoom(specs[1..], row[1..]); }
  }

  /** Ample rows leave more than three octets at the start of each. */
  lemma {:induction false} AmpleMore(m: Memory, p: nat, specs: seq<FieldSpec>, rows: seq<seq<Value>>, padding: nat)
    requires rows != [] && ValidRows(specs, rows) && AnyVariable(specs) && Ample(specs, rows, padding)
    ensures |EncodeRows(specs, rows)| + padding >= 4 && |EncodeRow(specs, rows[0])| >= 1
            && Ample(specs, rows[1..], padding)
    decreases |rows|
  {
    RowTakesRoom(specs, rows[0]);
    if |rows| > 1 { AmpleMore(m, p, specs, rows[1..], padding); }
  }

  /** If they are not ample, the last row is not reported. */
  lemma {:induction false} ShortLoop(m: Memory, p: nat, end: nat, k: Key, specs: seq<FieldSpec>,
                                     rows: seq<seq<Value>>, fields: seq<FieldInfo>)
    requires ValidRows(specs, rows) && AnyVariable(specs) && Fits(fields, specs)
    requires Holds(m, p, EncodeRows(specs, rows)) && p + |EncodeRows(specs, rows)| <= end < p + U16
    requires !Ample(specs, rows, end - p - |EncodeRows(specs, rows)|)
    ensures |VariableRecords(m, p, end, k, fields).2| < |rows|
    decreases |rows|
  {
    if p + 3 < end {
      var length := FirstRow(m, p, specs, rows);
      RowTakesRoom(specs, rows[0]);
      NotAmple(specs, rows, length, end - p - |EncodeRows(specs, rows)|);
      var first := VariableStep(m, p, specs, rows[0], fields, length);
      ShortLoop(m, p + length, end, k, specs, rows[1..], first);
      OneMoreRecord(m, p, end, k, fields, first, length);
    }
  }

  lemma {:induction false} NotAmple(specs: seq<FieldSpec>, rows: seq<seq<Value>>, length: nat, padding: nat)
    requires rows != [] && ValidRows(specs, rows) && !Ample(specs, rows, padding)
             && length == |EncodeRow(specs, rows[0])|
    requires |EncodeRows(specs, rows)| + padding >= 4
    ensures |rows| > 1 && !Ample(specs, rows[1..], padding)
  {
  }

  lemma OneMoreRecord(m: Memory, p: nat, end: nat, k: Key, fields: seq<FieldInfo>, placed: seq<FieldInfo>, length: nat)
    requires Walk(m, p, fields, 0) == (placed, length) && 0 < length && p + 3 < end
    ensures |VariableRecords(m, p, end, k, fields).2| == 1 + |VariableRecords(m, p + length, end, k, placed).2|
  {
  }

  /** The first row, and where the others start. */
  lemma FirstRow(m: Memory, p: nat, specs: seq<FieldSpec>, rows: seq<seq<Value>>) returns (length: nat)
    requires rows != [] && ValidRows(specs, rows) && Holds(m, p, EncodeRows(specs, rows))
    ensures length == |EncodeRow(specs, rows[0])|
            && |EncodeRows(specs, rows)| == length + |EncodeRows(specs, rows[1..])|
    ensures Holds(m, p, EncodeRow(specs, rows[0])) && Holds(m, p + length, EncodeRows(specs, rows[1..]))
  {
    var e, rest, whole := EncodeRow(specs, rows[0]), EncodeRows(specs, rows[1..]), EncodeRows(specs, rows);
    HoldsBoth(m, p, whole, e, rest);
    length := |e|;
  }

  /** One pass of the loop over variable-length records. */
  lemma VariableStep(m: Memory, p: nat, specs: seq<FieldSpec>, row: seq<Value>, fields: seq<FieldInfo>, length: nat)
    returns (placed: seq<FieldInfo>)
    requires ValidRow(specs, row) && Fits(fields, specs) && Holds(m, p, EncodeRow(specs, row))
    requires length == |EncodeRow(specs, row)| < U16
    ensures Walk(m, p, fields, 0) == (placed, length) && Fits(placed, specs) && Values(m, p, placed) == Octets(row)
  {
    var spanned;
    placed, spanned := WalkReads(m, p, fields, specs, row, 0);
    WalkFits(m, p, fields, specs, 0);
    ShownValues(m, p, placed, row);
  }

  lemma VariableMore(m: Memory, p: nat, end: nat, k: Key, fields: seq<FieldInfo>, placed: seq<FieldInfo>, length: nat,
                     values: seq<seq<byte>>, es: seq<Event>, later: (bool, seq<FieldInfo>, seq<Event>))
    requires Walk(m, p, fields, 0) == (placed, length) && Values(m, p, placed) == values && 0 < length < U16
             && p + 3 < end
    requires Continues(VariableRecords(m, p + length, end, k, placed), es, later)
    ensures Continues(VariableRecords(m, p, end, k, fields), [Record(k, length, values)] + es, later)
  {
    Assoc([Record(k, length, values)], es, later.2);
  }

  // ---------------------------------------------------------------- what a message means

  /** The templates in force, as the exporter sees them. */
  type Book = map<Key, seq<FieldSpec>>

  ghost predicate Agrees(t: Template, specs: seq<FieldSpec>) {
    && ValidTemplate(specs) && t.setId == SET_TEMPLATE && t.expires == 0
    && if AnyVariable(specs) then t.recordLength == VARIABLE && Fits(t.fields, specs) else t == Announces(specs)
  }

  ghost predicate InForce(table: Table, book: Book) {
    table.Keys == book.Keys && forall k :: k in book ==> Agrees(table[k], book[k])
  }

  function Noted(book: Book, sourceId: nat, r: TemplateRecord): Book {
    var k := Key(sourceId, r.templateId);
    match r
    case Announcing(_, specs) => book[k := specs]
    case Withdrawing(_) => book - {k}
  }

  function NotedAll(book: Book, sourceId: nat, rs: seq<TemplateRecord>): Book
    decreases |rs|
  {
    if rs == [] then book else NotedAll(Noted(book, sourceId, rs[0]), sourceId, rs[1..])
  }

  /** Replacing or withdrawing a template reports its end; announcing one reports its fields. */
  function RecordEvents(book: Book, sourceId: nat, r: TemplateRecord): seq<Event> {
    var k := Key(sourceId, r.templateId);
    (if k in book then [Destroyed(k)] else [])
    + if r.Announcing? then [Announced(k, Announces(r.specs).fields)] else []
  }

  function RecordsEvents(book: Book, sourceId: nat, rs: seq<TemplateRecord>): seq<Event>
    decreases |rs|
  {
    if rs == [] then []
    else RecordEvents(book, sourceId, rs[0]) + RecordsEvents(Noted(book, sourceId, rs[0]), sourceId, rs[1..])
  }

  lemma {:induction false} AnyVaries(specs: seq<FieldSpec>, offset: nat)
    ensures Varies(Infos(specs, offset)) <==> AnyVariable(specs)
  {
    if specs != [] {
      var fs, rest := Infos(specs, offset), Infos(specs[1..], (offset + specs[0].length) % U16);
      AnyVaries(specs[1..], (offset + specs[0].length) % U16);
      assert fs[1..] == rest && fs[0].length == specs[0].length;
      if i :| 0 <= i < |rest| && rest[i].length == VARIABLE { assert fs[i + 1].length == VARIABLE; }
      if i :| 0 <= i < |fs| && fs[i].length == VARIABLE && i > 0 { assert rest[i - 1].length == VARIABLE; }
    }
  }

  lemma {:induction false} FreshFits(specs: seq<FieldSpec>, offset: nat)
    ensures Fits(Infos(specs, offset), specs) && Fits(Unplaced(Infos(specs, offset)), specs)
    decreases |specs|
  {
    if specs != [] {
      var next := (offset + specs[0].length) % U16;
      FreshFits(specs[1..], next);
      assert Infos(specs, offset)[1..] == Infos(specs[1..], next);
      assert Unplaced(Infos(specs, offset))[1..] == Unplaced(Infos(specs[1..], next));
    }
  }

  lemma {:induction false} InfosAre(specs: seq<FieldSpec>, offset: nat, i: nat)
    requires i < |specs| && offset < U16
    ensures Infos(specs, offset)[i] == Info(specs[i], (offset + TotalLength(specs[..i])) % U16)
    decreases |specs|
  {
    if i > 0 {
      var next := (offset + specs[0].length) % U16;
      InfosAre(specs[1..], next, i - 1);
      assert specs[..i][1..] == specs[1..][..i - 1];
      ModAdds(offset + specs[0].length, TotalLength(specs[1..][..i - 1]), next);
    }
  }

  /**
   * The fields a template announces are those it specifies, in number, order, id, enterprise number,
   * length and variability; with a variable-length field among them no offset is known, and otherwise
   * each one is the sum of the lengths before it.
   */
  lemma {:induction false} AnnouncedAre(specs: seq<FieldSpec>, i: nat)
    requires ValidTemplate(specs) && i < |specs|
    ensures |Announces(specs).fields| == |specs|
    ensures var f := Announces(specs).fields[i];
            && f.id == specs[i].id && f.eid == specs[i].eid && f.length == specs[i].length
            && (f.isVariable <==> specs[i].length == VARIABLE)
            && f.offset == if AnyVariable(specs) then VARIABLE else TotalLength(specs[..i]) % U16
    ensures Announces(specs).recordLength == if AnyVariable(specs) then VARIABLE else TotalLength(specs) % U16
  {
    AnyVaries(specs, 0);
    InfosAre(specs, 0, i);
  }

  lemma {:induction false} AnyVariableIs(specs: seq<FieldSpec>)
    ensures AnyVariable(specs) <==> exists i :: 0 <= i < |specs| && specs[i].length == VARIABLE
  {
    if specs != [] {
      var rest := specs[1..];
      AnyVariableIs(rest);
      if i :| 0 <= i < |rest| && rest[i].length == VARIABLE { assert specs[i + 1].length == VARIABLE; }
      if i :| 0 <= i < |specs| && specs[i].length == VARIABLE && i > 0 { assert rest[i - 1].length == VARIABLE; }
    }
  }

  lemma {:induction false} FitsAt(fields: seq<FieldInfo>, specs: seq<FieldSpec>, i: nat)
    requires Fits(fields, specs) && i < |specs|
    ensures |fields| == |specs| && fields[i].id == specs[i].id && fields[i].eid == specs[i].eid
    ensures fields[i].isVariable == specs[i].Variable()
    ensures !specs[i].Variable() ==> fields[i].length == specs[i].length
    decreases |specs|
  {
    if i > 0 { FitsAt(fields[1..], specs[1..], i - 1); }
  }

  /** Whatever records a template in force has been used for, its fields are still those of its announcement. */
  lemma FieldsInForce(table: Table, book: Book, k: Key, i: nat)
    requires InForce(table, book) && k in book && i < |book[k]|
    ensures |table[k].fields| == |book[k]|
    ensures var f := table[k].fields[i];
            && f.id == book[k][i].id && f.eid == book[k][i].eid
            && (f.isVariable <==> book[k][i].length == VARIABLE)
            && (!f.isVariable ==> f.length == book[k][i].length)
  {
    assert Agrees(table[k], book[k]);
    if AnyVariable(book[k]) { FitsAt(table[k].fields, book[k], i); } else { AnnouncedAre(book[k], i); }
  }

  lemma AnnouncesAgrees(specs: seq<FieldSpec>)
    requires ValidTemplate(specs)
    ensures Agrees(Announces(specs), specs)
  {
    AnyVaries(specs, 0);
    FreshFits(specs, 0);
  }

  /** A template record is taken as written. */
  lemma RecordParses(m: Memory, p: nat, r: TemplateRecord, sourceId: nat, s: State)
    requires ValidRecord(r) && Holds(m, p, EncodeRecord(r))
    ensures var k := Key(sourceId, r.templateId);
            TemplateRecordAt(m, p, sourceId, SET_TEMPLATE, s)
            == (if r.Announcing? then Announce(s, k, Announces(r.specs)) else Withdraw(s, k), p + |EncodeRecord(r)|)
  {
    match r
    case Announcing(id, specs) =>
      HoldsParts(m, p, Put16(id) + Put16(|specs|), EncodeSpecs(specs));
      HoldsParts(m, p, Put16(id), Put16(|specs|));
      Holds16(m, p, id);
      Holds16(m, p + 2, |specs|);
      var fields, end, total := FieldsParse(m, p + 4, specs, 0);
    case Withdrawing(id) =>
      HoldsParts(m, p, Put16(id), Put16(0));
      Holds16(m, p, id);
      Holds16(m, p + 2, 0);
  }

  /** What a record does: the latest announcement is in force, a withdrawal ends it. */
  lemma RecordTakesEffect(m: Memory, p: nat, sourceId: nat, s: State, book: Book, r: TemplateRecord)
    requires ValidRecord(r) && Holds(m, p, EncodeRecord(r)) && InForce(s.table, book)
    ensures var (s', q) := TemplateRecordAt(m, p, sourceId, SET_TEMPLATE, s);
            && InForce(s'.table, Noted(book, sourceId, r)) && s'.events == s.events + RecordEvents(book, sourceId, r)
            && q == p + |EncodeRecord(r)|
  {
    RecordParses(m, p, r, sourceId, s);
    if r.Announcing? { AnnouncesAgrees(r.specs); }
  }

  /** One pass of the loop over template records. */
  lemma RecordThen(m: Memory, p: nat, q: nat, end: nat, sourceId: nat, s: State, book: Book, r: TemplateRecord)
    returns (s': State)
    requires ValidRecord(r) && Holds(m, p, EncodeRecord(r)) && q == p + |EncodeRecord(r)| && p + 3 < end
             && InForce(s.table, book)
    ensures InForce(s'.table, Noted(book, sourceId, r)) && s'.events == s.events + RecordEvents(book, sourceId, r)
    ensures TemplateSet(m, p, end, sourceId, SET_TEMPLATE, s) == TemplateSet(m, q, end, sourceId, SET_TEMPLATE, s')
  {
    RecordTakesEffect(m, p, sourceId, s, book, r);
    s' := TemplateRecordAt(m, p, sourceId, SET_TEMPLATE, s).0;
    TemplateSetStep(m, p, end, sourceId, s);
  }

  lemma {:induction false} TemplateSetStep(m: Memory, p: nat, end: nat, sourceId: nat, s: State)
    requires p + 3 < end
    ensures var (s', q) := TemplateRecordAt(m, p, sourceId, SET_TEMPLATE, s);
            TemplateSet(m, p, end, sourceId, SET_TEMPLATE, s) == TemplateSet(m, q, end, sourceId, SET_TEMPLATE, s')
  {
  }

  lemma RecordsSplit(rs: seq<TemplateRecord>) returns (e: seq<byte>, rest: seq<byte>)
    requires rs != [] && ValidRecords(rs)
    ensures e == EncodeRecord(rs[0]) && rest == EncodeRecords(rs[1..]) && EncodeRecords(rs) == e + rest
  {
    e, rest := EncodeRecord(rs[0]), EncodeRecords(rs[1..]);
  }

  /** The first template record, and where the others start. */
  lemma FirstRecord(m: Memory, p: nat, rs: seq<TemplateRecord>, whole: seq<byte>) returns (q: nat, rest: seq<byte>)
    requires rs != [] && ValidRecords(rs) && whole == EncodeRecords(rs) && Holds(m, p, whole)
    ensures q == p + |EncodeRecord(rs[0])| && p + |whole| == q + |rest| && |whole| >= 4
    ensures Holds(m, p, EncodeRecord(rs[0])) && rest == EncodeRecords(rs[1..]) && Holds(m, q, rest)
  {
    var e;
    e, rest := RecordsSplit(rs);
    HoldsBoth(m, p, whole, e, rest);
    q := p + |e|;
  }

  lemma {:induction false} RecordsMore(sourceId: nat, s: State, s': State, t: State, book: Book, book': Book,
                                       rs: seq<TemplateRecord>)
    requires rs != [] && book' == Noted(book, sourceId, rs[0])
             && s'.events == s.events + RecordEvents(book, sourceId, rs[0])
    requires InForce(t.table, NotedAll(book', sourceId, rs[1..]))
             && t.events == s'.events + RecordsEvents(book', sourceId, rs[1..])
    ensures InForce(t.table, NotedAll(book, sourceId, rs)) && t.events == s.events + RecordsEvents(book, sourceId, rs)
  {
    Assoc(s.events, RecordEvents(book, sourceId, rs[0]), RecordsEvents(book', sourceId, rs[1..]));
  }

  lemma {:induction false} RecordsMean(m: Memory, p: nat, end: nat, sourceId: nat, s: State, book: Book,
                                       rs: seq<TemplateRecord>, e: seq<byte>)
    returns (t: State)
    requires ValidRecords(rs) && e == EncodeRecords(rs) && Holds(m, p, e) && InForce(s.table, book)
    requires p + |e| <= end <= p + |e| + 3
    ensures t == TemplateSet(m, p, end, sourceId, SET_TEMPLATE, s)
    ensures InForce(t.table, NotedAll(book, sourceId, rs))
    ensures t.events == s.events + RecordsEvents(book, sourceId, rs)
    decreases |rs|
  {
    if rs == [] {
      t := s;
    } else {
      var q, rest := FirstRecord(m, p, rs, e);
      var s' := RecordThen(m, p, q, end, sourceId, s, book, rs[0]);
      t := RecordsMean(m, q, end, sourceId, s', Noted(book, sourceId, rs[0]), rs[1..], rest);
      RecordsMore(sourceId, s, s', t, book, Noted(book, sourceId, rs[0]), rs);
    }
  }

  // ---------------------------------------------------------------- sets and messages

  function Body(book: Book, sourceId: nat, set_: MessageSet): seq<byte>
    requires ValidSet(book, sourceId, set_)
  {
    match set_
    case TemplateRecords(records, padding) => EncodeRecords(records) + padding
    case DataRecords(id, rows, padding) => EncodeRows(book[Key(sourceId, id)], rows) + padding
    case Unknown(_, octets) => octets
  }

  function SetId(set_: MessageSet): nat {
    match set_
    case TemplateRecords(_, _) => SET_TEMPLATE
    case DataRecords(id, _, _) => id
    case Unknown(id, _) => id
  }

  predicate ValidSet(book: Book, sourceId: nat, set_: MessageSet) {
    match set_
    case TemplateRecords(records, padding) => ValidRecords(records) && |padding| <= 3
    case DataRecords(id, rows, padding) =>
      var k := Key(sourceId, id);
      SET_DATA_START <= id < U16 && k in book && ValidTemplate(book[k]) && ValidRows(book[k], rows)
    case Unknown(id, _) =>
      id < U16 && id != SET_TEMPLATE && id != 3 && id != 4 && (id >= SET_DATA_START ==> Key(sourceId, id) !in book)
  }

  function AfterSet(book: Book, sourceId: nat, set_: MessageSet): Book {
    if set_.TemplateRecords? then NotedAll(book, sourceId, set_.records) else book
  }

  function SetEvents(book: Book, sourceId: nat, set_: MessageSet): seq<Event>
    requires ValidSet(book, sourceId, set_)
  {
    match set_
    case TemplateRecords(records, _) => RecordsEvents(book, sourceId, records)
    case DataRecords(id, rows, _) => RowEvents(Key(sourceId, id), book[Key(sourceId, id)], rows)
    case Unknown(_, _) => []
  }

  function EncodeSet(book: Book, sourceId: nat, set_: MessageSet): (e: seq<byte>)
    requires ValidSet(book, sourceId, set_) && |Body(book, sourceId, set_)| + 4 < U16
    ensures |e| == 4 + |Body(book, sourceId, set_)|
  {
    Put16(SetId(set_)) + Put16(|Body(book, sourceId, set_)| + 4) + Body(book, sourceId, set_)
  }

  predicate Decodable(book: Book, sourceId: nat, set_: MessageSet)
    requires ValidSet(book, sourceId, set_)
  {
    set_.DataRecords? ==> Cuttable(book[Key(sourceId, set_.templateId)], set_.rows, |set_.padding|)
  }

  /** Each set is valid for the templates in force when it is reached. */
  predicate ValidSets(book: Book, sourceId: nat, sets: seq<MessageSet>)
    decreases |sets|
  {
    sets == [] ||
    (&& ValidSet(book, sourceId, sets[0]) && |Body(book, sourceId, sets[0])| + 4 < U16
     && ValidSets(AfterSet(book, sourceId, sets[0]), sourceId, sets[1..]))
  }

  /** Each set can be cut. */
  predicate AllDecodable(book: Book, sourceId: nat, sets: seq<MessageSet>)
    requires ValidSets(book, sourceId, sets)
    decreases |sets|
  {
    sets == [] ||
    (Decodable(book, sourceId, sets[0]) && AllDecodable(AfterSet(book, sourceId, sets[0]), sourceId, sets[1..]))
  }

  function EncodeSets(book: Book, sourceId: nat, sets: seq<MessageSet>): seq<byte>
    requires ValidSets(book, sourceId, sets)
    decreases |sets|
  {
    if sets == [] then []
    else EncodeSet(book, sourceId, sets[0]) + EncodeSets(AfterSet(book, sourceId, sets[0]), sourceId, sets[1..])
  }

  function AfterSets(book: Book, sourceId: nat, sets: seq<MessageSet>): Book
    decreases |sets|
  {
    if sets == [] then book else AfterSets(AfterSet(book, sourceId, sets[0]), sourceId, sets[1..])
  }

  function SetsEvents(book: Book, sourceId: nat, sets: seq<MessageSet>): seq<Event>
    requires ValidSets(book, sourceId, sets)
    decreases |sets|
  {
    if sets == [] then []
    else SetEvents(book, sourceId, sets[0]) + SetsEvents(AfterSet(book, sourceId, sets[0]), sourceId, sets[1..])
  }

  /** What an outcome must be: done, with the templates of book in force and the events reported. */
  ghost predicate Means(r: Outcome, s: State, book: Book, events: seq<Event>) {
    r.Done? && InForce(r.state.table, book) && r.state.events == s.events + events
  }

  lemma HeaderReads(m: Memory, p: nat, book: Book, sourceId: nat, set_: MessageSet)
    requires ValidSet(book, sourceId, set_) && |Body(book, sourceId, set_)| + 4 < U16
    requires Holds(m, p, EncodeSet(book, sourceId, set_))
    ensures Net16(m, p) == SetId(set_) && Net16(m, p + 2) == |EncodeSet(book, sourceId, set_)|
    ensures Holds(m, p + 4, Body(book, sourceId, set_))
  {
    var b := Body(book, sourceId, set_);
    HoldsParts(m, p, Put16(SetId(set_)) + Put16(|b| + 4), b);
    HoldsParts(m, p, Put16(SetId(set_)), Put16(|b| + 4));
    Holds16(m, p, SetId(set_));
    Holds16(m, p + 2, |b| + 4);
  }

  lemma NoneExpired(s: State, book: Book, k: Key, now: int)
    requires InForce(s.table, book)
    ensures AfterGet(s.table, k, now) == s.table && (k in s.table <==> k in book)
  {
    if k in s.table { assert Agrees(s.table[k], book[k]); }
  }

  /** The record loop of a data set: whether it ends, the field infos it leaves, and the records. */
  ghost function RecordLoop(m: Memory, p: nat, end: nat, k: Key, t: Template): (bool, seq<FieldInfo>, seq<Event>) {
    if t.recordLength < VARIABLE then
      var (ends, es) := FixedRecords(m, p, end, k, t);
      (ends, t.fields, es)
    else VariableRecords(m, p, end, k, t.fields)
  }

  /** A data set of a template in force is its record loop; a length below that of the header wraps. */
  lemma LoopInSet(m: Memory, p: nat, sourceId: nat, now: int, s: State, k: Key, end: nat)
    requires k == Key(sourceId, Net16(m, p)) && AfterGet(s.table, k, now) == s.table && k in s.table
    requires s.table[k].setId == SET_TEMPLATE && end == p + Net16(m, p + 2) + if Net16(m, p + 2) < 4 then U16 else 0
    ensures var (ends, left, es) := RecordLoop(m, p + 4, end, k, s.table[k]);
            DataSet(m, p, sourceId, now, s)
            == if ends then Done(State(s.table[k := s.table[k].(fields := left)], s.events + es)) else Loops
  {
    assert s.table[k := s.table[k].(fields := s.table[k].fields)] == s.table;
  }

  /** The loop reports exactly the rows. */
  ghost predicate Reports(r: (bool, seq<FieldInfo>, seq<Event>), es: seq<Event>) {
    r.0 && r.2 == es
  }

  lemma {:induction false} RowsReportIff(m: Memory, p: nat, end: nat, k: Key, specs: seq<FieldSpec>,
                                         rows: seq<seq<Value>>, t: Template)
    requires ValidRows(specs, rows) && !AnyVariable(specs) && 1 <= TotalLength(specs) < VARIABLE
             && t == Announces(specs)
    requires Holds(m, p, EncodeRows(specs, rows)) && p + |EncodeRows(specs, rows)| <= end
    ensures Reports(RecordLoop(m, p, end, k, t), RowEvents(k, specs, rows))
            <==> Cuttable(specs, rows, end - p - |EncodeRows(specs, rows)|)
    ensures RecordLoop(m, p, end, k, t).1 == t.fields
  {
    AnyVaries(specs, 0);
    var q := p + |EncodeRows(specs, rows)|;
    FixedLoop(m, p, q, end, k, specs, rows, t);
    FixedStops(m, q, end, k, t);
  }

  lemma {:induction false} FixedStops(m: Memory, q: nat, end: nat, k: Key, t: Template)
    requires q <= end && t.recordLength > 0
    ensures FixedRecords(m, q, end, k, t) == (true, []) <==> end - q < t.recordLength
    ensures FixedRecords(m, q, end, k, t).1 == [] <==> end - q < t.recordLength
  {
  }

  /** Without rows nothing is reported exactly while the padding is shorter than what the program takes for a record. */
  lemma {:induction false} EmptyReportsIff(m: Memory, p: nat, end: nat, k: Key, specs: seq<FieldSpec>, t: Template)
    requires !AnyVariable(specs) && t == Announces(specs) && p <= end
    ensures Reports(RecordLoop(m, p, end, k, t), []) <==> Cuttable(specs, [], end - p)
    ensures Cuttable(specs, [], end - p) ==> RecordLoop(m, p, end, k, t).1 == t.fields
  {
    AnyVaries(specs, 0);
    if t.recordLength == VARIABLE {
      VariableStops(m, p, end, k, t.fields);
    } else if t.recordLength > 0 {
      FixedStops(m, p, end, k, t);
    }
  }

  /** If the lengths sum to a multiple of 2^16, the loop over the records does not end. */
  lemma {:induction false} NeverEnds(m: Memory, p: nat, end: nat, k: Key, specs: seq<FieldSpec>, t: Template)
    requires !AnyVariable(specs) && t == Announces(specs) && p <= end && TotalLength(specs) % U16 == 0
    ensures !RecordLoop(m, p, end, k, t).0
  {
    AnyVaries(specs, 0);
  }

  lemma {:induction false} FixedRowLength(specs: seq<FieldSpec>, row: seq<Value>)
    requires ValidRow(specs, row) && !AnyVariable(specs)
    ensures |EncodeRow(specs, row)| == TotalLength(specs)
  {
    if specs != [] { FixedRowLength(specs[1..], row[1..]); }
  }

  /** Fixed-length records are reported exactly if there is less padding than the program takes for a record. */
  lemma {:induction false} FixedReportsIff(m: Memory, p: nat, end: nat, k: Key, specs: seq<FieldSpec>,
                                           rows: seq<seq<Value>>, t: Template)
    requires ValidRows(specs, rows) && !AnyVariable(specs) && t == Announces(specs)
    requires Holds(m, p, EncodeRows(specs, rows)) && p + |EncodeRows(specs, rows)| <= end < p + VARIABLE
    ensures Reports(RecordLoop(m, p, end, k, t), RowEvents(k, specs, rows))
            <==> Cuttable(specs, rows, end - p - |EncodeRows(specs, rows)|)
    ensures Cuttable(specs, rows, end - p - |EncodeRows(specs, rows)|) ==> RecordLoop(m, p, end, k, t).1 == t.fields
  {
    if rows == [] {
      EmptyReportsIff(m, p, end, k, specs, t);
    } else {
      FixedRowLength(specs, rows[0]);
      if TotalLength(specs) == 0 {
        NeverEnds(m, p, end, k, specs, t);
      } else {
        RowsReportIff(m, p, end, k, specs, rows, t);
      }
    }
  }

  lemma {:induction false} VariableReportsIff(m: Memory, p: nat, end: nat, k: Key, specs: seq<FieldSpec>,
                                              rows: seq<seq<Value>>,
                           t: Template)
    requires ValidRows(specs, rows) && AnyVariable(specs) && t.recordLength == VARIABLE && Fits(t.fields, specs)
    requires Holds(m, p, EncodeRows(specs, rows)) && p + |EncodeRows(specs, rows)| <= end < p + U16
    ensures Reports(RecordLoop(m, p, end, k, t), RowEvents(k, specs, rows))
            <==> Cuttable(specs, rows, end - p - |EncodeRows(specs, rows)|)
    ensures Cuttable(specs, rows, end - p - |EncodeRows(specs, rows)|) ==> Fits(RecordLoop(m, p, end, k, t).1, specs)
  {
    var q := p + |EncodeRows(specs, rows)|;
    if Ample(specs, rows, end - q) {
      var placed := VariableLoop(m, p, q, end, k, specs, rows, t.fields);
      VariableStops(m, q, end, k, placed);
    } else {
      ShortLoop(m, p, end, k, specs, rows, t.fields);
    }
  }

  lemma {:induction false} VariableStops(m: Memory, q: nat, end: nat, k: Key, fields: seq<FieldInfo>)
    ensures q + 3 >= end ==> VariableRecords(m, q, end, k, fields) == (true, fields, [])
    ensures q + 3 < end ==> !VariableRecords(m, q, end, k, fields).0 || VariableRecords(m, q, end, k, fields).2 != []
  {
  }

  /** What a data set of the template with key k does to the state, and what its record loop is. */
  lemma DataSetLoop(m: Memory, p: nat, sourceId: nat, now: int, s: State, book: Book, set_: MessageSet, k: Key)
    returns (end: nat, r: (bool, seq<FieldInfo>, seq<Event>))
    requires set_.DataRecords? && ValidSet(book, sourceId, set_) && |Body(book, sourceId, set_)| + 4 < U16
    requires Holds(m, p, EncodeSet(book, sourceId, set_)) && InForce(s.table, book)
             && k == Key(sourceId, set_.templateId)
    ensures k in s.table && Agrees(s.table[k], book[k])
    ensures Holds(m, p + 4, EncodeRows(book[k], set_.rows))
            && end == p + 4 + |EncodeRows(book[k], set_.rows)| + |set_.padding| < p + U16
    ensures r == RecordLoop(m, p + 4, end, k, s.table[k])
    ensures DataSet(m, p, sourceId, now, s)
            == if r.0 then Done(State(s.table[k := s.table[k].(fields := r.1)], s.events + r.2)) else Loops
  {
    HeaderReads(m, p, book, sourceId, set_);
    NoneExpired(s, book, k, now);
    HoldsParts(m, p + 4, EncodeRows(book[k], set_.rows), set_.padding);
    end := p + Net16(m, p + 2);
    LoopInSet(m, p, sourceId, now, s, k, end);
    r := RecordLoop(m, p + 4, end, k, s.table[k]);
  }

  lemma {:induction false} LoopReportsIff(m: Memory, p: nat, end: nat, k: Key, specs: seq<FieldSpec>,
                                          rows: seq<seq<Value>>, t: Template)
    requires ValidRows(specs, rows) && Agrees(t, specs)
    requires Holds(m, p, EncodeRows(specs, rows)) && p + |EncodeRows(specs, rows)| <= end < p + VARIABLE
    ensures Reports(RecordLoop(m, p, end, k, t), RowEvents(k, specs, rows))
            <==> Cuttable(specs, rows, end - p - |EncodeRows(specs, rows)|)
    ensures Cuttable(specs, rows, end - p - |EncodeRows(specs, rows)|) ==>
              Agrees(t.(fields := RecordLoop(m, p, end, k, t).1), specs)
  {
    if AnyVariable(specs) {
      VariableReportsIff(m, p, end, k, specs, rows, t);
    } else {
      FixedReportsIff(m, p, end, k, specs, rows, t);
    }
  }

  /**
   * Exactly which data sets are decoded: the records reported are those encoded, and the
   * templates stay in force, if and only if the set can be cut.
   */
  lemma DataSetMeansIff(m: Memory, p: nat, sourceId: nat, now: int, s: State, book: Book, set_: MessageSet)
    requires set_.DataRecords? && ValidSet(book, sourceId, set_) && |Body(book, sourceId, set_)| + 4 < U16
    requires Holds(m, p, EncodeSet(book, sourceId, set_)) && InForce(s.table, book)
    ensures Means(DataSet(m, p, sourceId, now, s), s, book, SetEvents(book, sourceId, set_))
            <==> Decodable(book, sourceId, set_)
  {
    var k := Key(sourceId, set_.templateId);
    var end, r := DataSetLoop(m, p, sourceId, now, s, book, set_, k);
    LoopReportsIff(m, p + 4, end, k, book[k], set_.rows, s.table[k]);
    SameTail(s.events, r.2, SetEvents(book, sourceId, set_));
  }

  lemma SameTail<T>(a: seq<T>, b: seq<T>, c: seq<T>)
    ensures a + b == a + c <==> b == c
  {
    if a + b == a + c {
      assert b == (a + b)[|a|..] && c == (a + c)[|a|..];
    }
  }

  /** If the field lengths of a template sum to a multiple of 2^16, a data set of it is never left. */
  lemma ZeroLengthLoops(m: Memory, p: nat, sourceId: nat, now: int, s: State, book: Book, set_: MessageSet)
    requires set_.DataRecords? && ValidSet(book, sourceId, set_) && |Body(book, sourceId, set_)| + 4 < U16
    requires Holds(m, p, EncodeSet(book, sourceId, set_)) && InForce(s.table, book)
    requires !AnyVariable(book[Key(sourceId, set_.templateId)])
             && TotalLength(book[Key(sourceId, set_.templateId)]) % U16 == 0
    ensures DataSet(m, p, sourceId, now, s) == Loops
  {
    var k := Key(sourceId, set_.templateId);
    var end, r := DataSetLoop(m, p, sourceId, now, s, book, set_, k);
    NeverEnds(m, p + 4, end, k, book[k], s.table[k]);
  }

  lemma {:induction false} ShortRow(k: Key, id: nat, b: byte, padding: nat)
    requires id < ENTERPRISE && padding <= 3
    ensures var specs, rows := [FieldSpec(id, VARIABLE, 0)], [[Value([b], false)]];
            && ValidTemplate(specs) && ValidRows(specs, rows) && AnyVariable(specs)
            && EncodeRows(specs, rows) == [1 as byte, b] && RowEvents(k, specs, rows) == [Record(k, 2, [[b]])]
            && (Cuttable(specs, rows, padding) <==> padding >= 2)
  {
    var specs, row := [FieldSpec(id, VARIABLE, 0)], [Value([b], false)];
    var rows := [row];
    assert specs[1..] == [] && row[1..] == [] && rows[1..] == [];
    assert EncodeRow(specs, row) == [1 as byte] + [b] + [];
    assert Octets(row) == [[b]] + Octets(row[1..]) == [[b]];
    assert EncodeRow(specs, row) == [1 as byte, b];
    assert rows[0] == row && RowEvents(k, specs, []) == [];
    assert RowEvents(k, specs, rows) == [Record(k, |EncodeRow(specs, row)|, Octets(row))] + RowEvents(k, specs, []);
  }

  /**
   * A data set with one record, of one value of one octet with variable length: without
   * two octets of padding behind it nothing is reported, with them the record is.
   */
  lemma ShortRecordIsLost(m: Memory, p: nat, sourceId: nat, now: int, s: State, book: Book,
                          templateId: nat, id: nat, b: byte, padding: seq<byte>)
    requires SET_DATA_START <= templateId < U16 && id < ENTERPRISE && |padding| <= 3 && InForce(s.table, book)
    requires Key(sourceId, templateId) in book && book[Key(sourceId, templateId)] == [FieldSpec(id, VARIABLE, 0)]
    requires Holds(m, p, Put16(templateId) + Put16(6 + |padding|) + ([1 as byte, b] + padding))
    ensures |padding| < 2 ==> DataSet(m, p, sourceId, now, s) == Done(s)
    ensures |padding| >= 2 ==> Means(DataSet(m, p, sourceId, now, s), s, book,
                                     [Record(Key(sourceId, templateId), 2, [[b]])])
  {
    var k := Key(sourceId, templateId);
    ShortRow(k, id, b, |padding|);
    var set_ := DataRecords(templateId, [[Value([b], false)]], padding);
    assert Body(book, sourceId, set_) == [1 as byte, b] + padding;
    DataSetMeansIff(m, p, sourceId, now, s, book, set_);
    if |padding| < 2 {
      var end, r := DataSetLoop(m, p, sourceId, now, s, book, set_, k);
      VariableStops(m, p + 4, end, k, s.table[k].fields);
      assert s.table[k := s.table[k].(fields := s.table[k].fields)] == s.table;
    }
  }

  lemma {:induction false} TemplateSetMeans(m: Memory, p: nat, end: nat, sourceId: nat, s: State, book: Book,
                         records: seq<TemplateRecord>, padding: seq<byte>)
    requires ValidRecords(records) && |padding| <= 3 && InForce(s.table, book)
    requires Holds(m, p, EncodeRecords(records) + padding) && end == p + |EncodeRecords(records)| + |padding|
    ensures Means(Done(TemplateSet(m, p, end, sourceId, SET_TEMPLATE, s)), s,
                  NotedAll(book, sourceId, records), RecordsEvents(book, sourceId, records))
  {
    HoldsParts(m, p, EncodeRecords(records), padding);
    var after := RecordsMean(m, p, end, sourceId, s, book, records, EncodeRecords(records));
  }

  /** What SetAt must lead to, and where the next set is. */
  ghost predicate Leads(m: Memory, p: nat, q: nat, sourceId: nat, now: int, s: State, s': State, book: Book,
                        es: seq<Event>)
  {
    && SetAt(m, p, sourceId, now, s) == Done(s') && InForce(s'.table, book)
    && s'.events == s.events + es && p + Net16(m, p + 2) == q > p
  }

  lemma UnknownSetMeans(m: Memory, p: nat, q: nat, sourceId: nat, now: int, s: State, book: Book, set_: MessageSet)
    requires set_.Unknown? && ValidSet(book, sourceId, set_) && |Body(book, sourceId, set_)| + 4 < U16
    requires Holds(m, p, EncodeSet(book, sourceId, set_)) && InForce(s.table, book)
             && q == p + |EncodeSet(book, sourceId, set_)|
    ensures Leads(m, p, q, sourceId, now, s, s, book, [])
  {
    HeaderReads(m, p, book, sourceId, set_);
    NoneExpired(s, book, Key(sourceId, set_.setId), now);
  }

  lemma TemplatesMean(m: Memory, p: nat, q: nat, sourceId: nat, now: int, s: State, book: Book, set_: MessageSet)
    returns (s': State)
    requires set_.TemplateRecords? && ValidSet(book, sourceId, set_) && |Body(book, sourceId, set_)| + 4 < U16
    requires Holds(m, p, EncodeSet(book, sourceId, set_)) && InForce(s.table, book)
             && q == p + |EncodeSet(book, sourceId, set_)|
    ensures Leads(m, p, q, sourceId, now, s, s', AfterSet(book, sourceId, set_), SetEvents(book, sourceId, set_))
  {
    HeaderReads(m, p, book, sourceId, set_);
    TemplateSetMeans(m, p + 4, q, sourceId, s, book, set_.records, set_.padding);
    s' := TemplateSet(m, p + 4, q, sourceId, SET_TEMPLATE, s);
  }

  lemma DataMeans(m: Memory, p: nat, q: nat, sourceId: nat, now: int, s: State, book: Book, set_: MessageSet)
    returns (s': State)
    requires set_.DataRecords? && ValidSet(book, sourceId, set_) && Decodable(book, sourceId, set_)
             && |Body(book, sourceId, set_)| + 4 < U16
    requires Holds(m, p, EncodeSet(book, sourceId, set_)) && InForce(s.table, book)
             && q == p + |EncodeSet(book, sourceId, set_)|
    ensures Leads(m, p, q, sourceId, now, s, s', AfterSet(book, sourceId, set_), SetEvents(book, sourceId, set_))
  {
    HeaderReads(m, p, book, sourceId, set_);
    DataSetMeansIff(m, p, sourceId, now, s, book, set_);
    s' := DataSet(m, p, sourceId, now, s).state;
  }

  /** A set that can be cut, with the position of the next one. */
  lemma SetMeans(m: Memory, p: nat, q: nat, sourceId: nat, now: int, s: State, book: Book, set_: MessageSet)
    returns (s': State)
    requires ValidSet(book, sourceId, set_) && Decodable(book, sourceId, set_) && |Body(book, sourceId, set_)| + 4 < U16
    requires Holds(m, p, EncodeSet(book, sourceId, set_)) && InForce(s.table, book)
             && q == p + |EncodeSet(book, sourceId, set_)|
    ensures Leads(m, p, q, sourceId, now, s, s', AfterSet(book, sourceId, set_), SetEvents(book, sourceId, set_))
  {
    if set_.TemplateRecords? {
      s' := TemplatesMean(m, p, q, sourceId, now, s, book, set_);
    } else if set_.DataRecords? {
      s' := DataMeans(m, p, q, sourceId, now, s, book, set_);
    } else {
      s' := s;
      UnknownSetMeans(m, p, q, sourceId, now, s, book, set_);
    }
  }

  lemma {:induction false} SetsStep(m: Memory, p: nat, q: nat, end: nat, sourceId: nat, now: int, s: State, s': State,
                                    book: Book,
                 es: seq<Event>)
    requires p < end && Leads(m, p, q, sourceId, now, s, s', book, es)
    ensures Sets(m, p, end, sourceId, now, s) == Sets(m, q, end, sourceId, now, s')
  {
  }

  /** The first set, where the others start, and the templates in force there. */
  lemma FirstSet(m: Memory, p: nat, sourceId: nat, book: Book, sets: seq<MessageSet>) returns (q: nat, book': Book)
    requires sets != [] && ValidSets(book, sourceId, sets) && Holds(m, p, EncodeSets(book, sourceId, sets))
    ensures ValidSet(book, sourceId, sets[0]) && |Body(book, sourceId, sets[0])| + 4 < U16
    ensures q == p + |EncodeSet(book, sourceId, sets[0])| && Holds(m, p, EncodeSet(book, sourceId, sets[0]))
    ensures book' == AfterSet(book, sourceId, sets[0]) && ValidSets(book', sourceId, sets[1..])
    ensures Holds(m, q, EncodeSets(book', sourceId, sets[1..]))
    ensures p + |EncodeSets(book, sourceId, sets)| == q + |EncodeSets(book', sourceId, sets[1..])|
  {
    book' := AfterSet(book, sourceId, sets[0]);
    var e, rest := EncodeSet(book, sourceId, sets[0]), EncodeSets(book', sourceId, sets[1..]);
    var whole := EncodeSets(book, sourceId, sets);
    HoldsBoth(m, p, whole, e, rest);
    q := p + |e|;
  }

  /** The state the set loop ends in. */
  lemma {:induction false} SetsMean(m: Memory, p: nat, end: nat, sourceId: nat, now: int, s: State, book: Book,
                                    sets: seq<MessageSet>)
    returns (t: State, es: seq<Event>)
    requires ValidSets(book, sourceId, sets) && Holds(m, p, EncodeSets(book, sourceId, sets)) && InForce(s.table, book)
    requires AllDecodable(book, sourceId, sets) && end == p + |EncodeSets(book, sourceId, sets)|
    ensures Sets(m, p, end, sourceId, now, s) == Done(t) && InForce(t.table, AfterSets(book, sourceId, sets))
    ensures t.events == s.events + es && es == SetsEvents(book, sourceId, sets)
    decreases |sets|
  {
    if sets == [] {
      t, es := s, [];
    } else {
      var q, book' := FirstSet(m, p, sourceId, book, sets);
      var s', first := SetThen(m, p, q, end, sourceId, now, s, book, sets[0]);
      t, es := SetsMean(m, q, end, sourceId, now, s', book', sets[1..]);
      Assoc(s.events, first, es);
      es := first + es;
    }
  }

  /** One pass of the set loop. */
  lemma SetThen(m: Memory, p: nat, q: nat, end: nat, sourceId: nat, now: int, s: State, book: Book, set_: MessageSet)
    returns (s': State, es: seq<Event>)
    requires ValidSet(book, sourceId, set_) && Decodable(book, sourceId, set_) && |Body(book, sourceId, set_)| + 4 < U16
    requires Holds(m, p, EncodeSet(book, sourceId, set_)) && InForce(s.table, book)
    requires q == p + |EncodeSet(book, sourceId, set_)| && p < end
    ensures InForce(s'.table, AfterSet(book, sourceId, set_)) && s'.events == s.events + es
            && es == SetEvents(book, sourceId, set_)
    ensures Sets(m, p, end, sourceId, now, s) == Sets(m, q, end, sourceId, now, s')
  {
    s' := SetMeans(m, p, q, sourceId, now, s, book, set_);
    es := SetEvents(book, sourceId, set_);
    SetsStep(m, p, q, end, sourceId, now, s, s', AfterSet(book, sourceId, set_), es);
  }

  /** The message header and its sets. */
  function EncodeMessage(book: Book, sourceId: nat, exportTime: nat, sequence: nat,
                         sets: seq<MessageSet>): (e: seq<byte>)
    requires sourceId < U32 && exportTime < U32 && sequence < U32
    requires ValidSets(book, sourceId, sets) && 16 + |EncodeSets(book, sourceId, sets)| < U16
    ensures |e| == 16 + |EncodeSets(book, sourceId, sets)|
  {
    Put16(10) + Put16(16 + |EncodeSets(book, sourceId, sets)|) + (Put32(exportTime) + Put32(sequence)) + Put32(sourceId)
    + EncodeSets(book, sourceId, sets)
  }

  /** Processing the message, in memory with anything behind it, reports what was encoded and leaves its templates. */
  ghost predicate Decoded(book: Book, sourceId: nat, exportTime: nat, sequence: nat, sets: seq<MessageSet>,
                          behind: seq<byte>, now: int, s: State)
    requires sourceId < U32 && exportTime < U32 && sequence < U32
    requires ValidSets(book, sourceId, sets) && 16 + |EncodeSets(book, sourceId, sets)| < U16
  {
    var e := EncodeMessage(book, sourceId, exportTime, sequence, sets);
    Means(Process(e + behind, |e|, now, s), s, AfterSets(book, sourceId, sets), SetsEvents(book, sourceId, sets))
  }

  /** What is found in a message with the given times and sets, whatever lies behind it. */
  lemma HeaderHolds(m: Memory, times: seq<byte>, sourceId: nat, body: seq<byte>, behind: seq<byte>)
    requires |times| == 8 && sourceId < U32 && 16 + |body| < U16
    requires m == Put16(10) + Put16(16 + |body|) + times + Put32(sourceId) + body + behind
    ensures Net16(m, 2) == 16 + |body| && Net32(m, 12) == sourceId && Holds(m, 16, body)
  {
    var length := 16 + |body|;
    var e := Put16(10) + Put16(length) + times + Put32(sourceId) + body;
    HoldsWhole(0, [], e, behind);
    assert [] + e + behind == m;
    HoldsParts(m, 0, Put16(10) + Put16(length) + times + Put32(sourceId), body);
    HoldsParts(m, 0, Put16(10) + Put16(length) + times, Put32(sourceId));
    HoldsParts(m, 0, Put16(10) + Put16(length), times);
    HoldsParts(m, 0, Put16(10), Put16(length));
    Holds16(m, 2, length);
    Holds32(m, 12, sourceId);
  }

  lemma {:induction false} ProcessIs(m: Memory, length: nat, sourceId: nat, now: int, s: State)
    requires Net16(m, 2) == length && Net32(m, 12) == sourceId
    ensures Process(m, length, now, s) == Sets(m, 16, length, sourceId, now, s)
  {
  }

  /** It is a matter of the set loop. */
  lemma DecodedIs(book: Book, sourceId: nat, exportTime: nat, sequence: nat, sets: seq<MessageSet>,
                  behind: seq<byte>, now: int, s: State) returns (m: Memory, end: nat)
    requires sourceId < U32 && exportTime < U32 && sequence < U32
    requires ValidSets(book, sourceId, sets) && 16 + |EncodeSets(book, sourceId, sets)| < U16
    ensures Holds(m, 16, EncodeSets(book, sourceId, sets)) && end == 16 + |EncodeSets(book, sourceId, sets)|
    ensures Decoded(book, sourceId, exportTime, sequence, sets, behind, now, s)
            <==> Means(Sets(m, 16, end, sourceId, now, s), s, AfterSets(book, sourceId, sets),
                       SetsEvents(book, sourceId, sets))
  {
    var e := EncodeMessage(book, sourceId, exportTime, sequence, sets);
    m, end := e + behind, |e|;
    HeaderHolds(m, Put32(exportTime) + Put32(sequence), sourceId, EncodeSets(book, sourceId, sets), behind);
    ProcessIs(m, end, sourceId, now, s);
  }

  /**
   * Decoding undoes encoding, on every message whose sets are valid for the templates in
   * force and can be cut: the records reported are exactly those encoded, value by value,
   * the templates in force afterwards are the exporter's, and nothing depends on the octets
   * behind the message.
   */
  lemma {:induction false} DecodesWhatWasEncoded(book: Book, sourceId: nat, exportTime: nat, sequence: nat,
                                                 sets: seq<MessageSet>,
                              behind: seq<byte>, now: int, s: State)
    requires sourceId < U32 && exportTime < U32 && sequence < U32
    requires ValidSets(book, sourceId, sets) && 16 + |EncodeSets(book, sourceId, sets)| < U16
    requires AllDecodable(book, sourceId, sets) && InForce(s.table, book)
    ensures Decoded(book, sourceId, exportTime, sequence, sets, behind, now, s)
  {
    var m, end := DecodedIs(book, sourceId, exportTime, sequence, sets, behind, now, s);
    var t, es := SetsMean(m, 16, end, sourceId, now, s, book, sets);
  }

  /** A message cut short on the way, or with octets too many, is rejected whole. */
  lemma {:induction false} WrongLengthRejected(book: Book, sourceId: nat, exportTime: nat, sequence: nat,
                                               sets: seq<MessageSet>,
                            behind: seq<byte>, received: nat, now: int, s: State)
    requires sourceId < U32 && exportTime < U32 && sequence < U32
    requires ValidSets(book, sourceId, sets) && 16 + |EncodeSets(book, sourceId, sets)| < U16
    ensures var e := EncodeMessage(book, sourceId, exportTime, sequence, sets);
            Process(e + behind, received, now, s) == Rejected <==> received != |e|
  {
    var e := EncodeMessage(book, sourceId, exportTime, sequence, sets);
    HeaderHolds(e + behind, Put32(exportTime) + Put32(sequence), sourceId, EncodeSets(book, sourceId, sets), behind);
  }

  // ---------------------------------------------------------------- messages that are not decoded

  /** A last set that cannot be cut is not made up for by the sets before it, which can. */
  lemma {:induction false} LastFails(m: Memory, p: nat, end: nat, sourceId: nat, now: int, s: State, book: Book,
                                     sets: seq<MessageSet>)
    requires ValidSets(book, sourceId, sets) && Holds(m, p, EncodeSets(book, sourceId, sets)) && InForce(s.table, book)
    requires end == p + |EncodeSets(book, sourceId, sets)| && FailsLast(book, sourceId, sets)
    ensures !Means(Sets(m, p, end, sourceId, now, s), s, AfterSets(book, sourceId, sets),
                   SetsEvents(book, sourceId, sets))
    decreases |sets|
  {
    var q, book' := FirstSet(m, p, sourceId, book, sets);
    if |sets| == 1 {
      OnlyFails(m, p, end, sourceId, now, s, book, sets);
    } else {
      var s', es := SetThen(m, p, q, end, sourceId, now, s, book, sets[0]);
      LastFails(m, q, end, sourceId, now, s', book', sets[1..]);
      Assoc(s.events, es, SetsEvents(book', sourceId, sets[1..]));
    }
  }

  /** All sets but the last can be cut. */
  predicate FailsLast(book: Book, sourceId: nat, sets: seq<MessageSet>)
    requires ValidSets(book, sourceId, sets)
    decreases |sets|
  {
    && sets != []
    && if |sets| == 1 then !Decodable(book, sourceId, sets[0])
       else Decodable(book, sourceId, sets[0])
            && FailsLast(AfterSet(book, sourceId, sets[0]), sourceId, sets[1..])
  }

  lemma {:induction false} OnlyFails(m: Memory, p: nat, end: nat, sourceId: nat, now: int, s: State, book: Book,
                                     sets: seq<MessageSet>)
    requires ValidSets(book, sourceId, sets) && Holds(m, p, EncodeSets(book, sourceId, sets)) && InForce(s.table, book)
    requires end == p + |EncodeSets(book, sourceId, sets)| && |sets| == 1 && !Decodable(book, sourceId, sets[0])
    ensures !Means(Sets(m, p, end, sourceId, now, s), s, AfterSets(book, sourceId, sets),
                   SetsEvents(book, sourceId, sets))
  {
    var q, book' := FirstSet(m, p, sourceId, book, sets);
    assert sets[1..] == [];
    HeaderReads(m, p, book, sourceId, sets[0]);
    DataSetMeansIff(m, p, sourceId, now, s, book, sets[0]);
    assert SetEvents(book, sourceId, sets[0]) + [] == SetEvents(book, sourceId, sets[0]);
    SetsEndAt(m, p, end, sourceId, now, s);
  }

  /** The last pass of the set loop. */
  lemma {:induction false} SetsEndAt(m: Memory, p: nat, end: nat, sourceId: nat, now: int, s: State)
    requires p < end && p + Net16(m, p + 2) == end
    ensures Sets(m, p, end, sourceId, now, s) == SetAt(m, p, sourceId, now, s)
  {
  }

  /** The first sets of valid sets are valid, and their encoding is no longer. */
  lemma {:induction false} PrefixValid(book: Book, sourceId: nat, sets: seq<MessageSet>, i: nat)
    requires ValidSets(book, sourceId, sets) && i <= |sets|
    ensures ValidSets(book, sourceId, sets[..i])
    ensures |EncodeSets(book, sourceId, sets[..i])| <= |EncodeSets(book, sourceId, sets)|
    ensures AllDecodable(book, sourceId, sets) ==> AllDecodable(book, sourceId, sets[..i])
    decreases |sets|
  {
    if i > 0 {
      PrefixValid(AfterSet(book, sourceId, sets[0]), sourceId, sets[1..], i - 1);
      assert sets[..i][1..] == sets[1..][..i - 1];
    }
  }

  /** Where the first set lies that cannot be cut. */
  lemma {:induction false} FirstFailing(book: Book, sourceId: nat, sets: seq<MessageSet>) returns (i: nat)
    requires ValidSets(book, sourceId, sets) && !AllDecodable(book, sourceId, sets)
    ensures i <= |sets| && ValidSets(book, sourceId, sets[..i]) && FailsLast(book, sourceId, sets[..i])
    decreases |sets|
  {
    if !Decodable(book, sourceId, sets[0]) {
      i := 1;
      PrefixValid(book, sourceId, sets, 1);
    } else {
      i := FirstFailing(AfterSet(book, sourceId, sets[0]), sourceId, sets[1..]);
      i := i + 1;
      assert sets[..i][1..] == sets[1..][..i - 1];
    }
  }

  lemma {:induction false} NotDecoded(book: Book, sourceId: nat, exportTime: nat, sequence: nat, sets: seq<MessageSet>,
                   behind: seq<byte>, now: int, s: State)
    requires sourceId < U32 && exportTime < U32 && sequence < U32
    requires ValidSets(book, sourceId, sets) && 16 + |EncodeSets(book, sourceId, sets)| < U16
    requires FailsLast(book, sourceId, sets) && InForce(s.table, book)
    ensures !Decoded(book, sourceId, exportTime, sequence, sets, behind, now, s)
  {
    var m, end := DecodedIs(book, sourceId, exportTime, sequence, sets, behind, now, s);
    LastFails(m, 16, end, sourceId, now, s, book, sets);
  }

  /** The message of the first i sets is decoded. */
  ghost predicate PrefixDecoded(book: Book, sourceId: nat, exportTime: nat, sequence: nat, sets: seq<MessageSet>,
                                behind: seq<byte>, now: int, s: State, i: nat)
    requires sourceId < U32 && exportTime < U32 && sequence < U32 && i <= |sets|
    requires ValidSets(book, sourceId, sets) && 16 + |EncodeSets(book, sourceId, sets)| < U16
  {
    PrefixValid(book, sourceId, sets, i);
    Decoded(book, sourceId, exportTime, sequence, sets[..i], behind, now, s)
  }

  /**
   * Exactly which sequences of sets are decoded, set by set: every message made of the first
   * of them reports what was encoded if and only if each of them can be cut.
   */
  lemma {:induction false} DecodesIff(book: Book, sourceId: nat, exportTime: nat, sequence: nat, sets: seq<MessageSet>,
                   behind: seq<byte>, now: int, s: State)
    requires sourceId < U32 && exportTime < U32 && sequence < U32
    requires ValidSets(book, sourceId, sets) && 16 + |EncodeSets(book, sourceId, sets)| < U16 && InForce(s.table, book)
    ensures (forall i :: 0 <= i <= |sets| ==>
               PrefixDecoded(book, sourceId, exportTime, sequence, sets, behind, now, s, i))
            <==> AllDecodable(book, sourceId, sets)
  {
    if AllDecodable(book, sourceId, sets) {
      forall i | 0 <= i <= |sets|
        ensures PrefixDecoded(book, sourceId, exportTime, sequence, sets, behind, now, s, i)
      {
        PrefixValid(book, sourceId, sets, i);
        DecodesWhatWasEncoded(book, sourceId, exportTime, sequence, sets[..i], behind, now, s);
      }
    } else {
      var i := FirstFailing(book, sourceId, sets);
      PrefixValid(book, sourceId, sets, i);
      NotDecoded(book, sourceId, exportTime, sequence, sets[..i], behind, now, s);
      assert !PrefixDecoded(book, sourceId, exportTime, sequence, sets, behind, now, s, i);
    }
  }

  /** A data set that loses a short record, and one with padding that reads as that record. */
  function Lost(templateId: nat, b: byte): MessageSet {
    DataRecords(templateId, [[Value([b], false)]], [])
  }

  function Stray(templateId: nat, b: byte): MessageSet {
    DataRecords(templateId, [], [1, b, 0, 0])
  }

  lemma {:induction false} LostAndStray(book: Book, sourceId: nat, templateId: nat, id: nat, b: byte)
    requires SET_DATA_START <= templateId < U16 && id < ENTERPRISE
    requires Key(sourceId, templateId) in book && book[Key(sourceId, templateId)] == [FieldSpec(id, VARIABLE, 0)]
    ensures var sets := [Lost(templateId, b), Stray(templateId, b)];
            && ValidSets(book, sourceId, sets)
            && !Decodable(book, sourceId, sets[0]) && !Decodable(book, sourceId, sets[1])
            && SetsEvents(book, sourceId, sets) == [Record(Key(sourceId, templateId), 2, [[b]])]
            && AfterSets(book, sourceId, sets) == book
  {
    var k := Key(sourceId, templateId);
    var sets := [Lost(templateId, b), Stray(templateId, b)];
    ShortRow(k, id, b, 0);
    assert sets[1..] == [Stray(templateId, b)] && sets[1..][1..] == [];
    assert ValidSet(book, sourceId, sets[0]) && ValidSet(book, sourceId, sets[1]);
    assert SetEvents(book, sourceId, sets[1]) == [];
    assert AfterSets(book, sourceId, sets[1..]) == AfterSets(book, sourceId, []) == book;
    assert SetsEvents(book, sourceId, sets[1..]) == [] + SetsEvents(book, sourceId, []) == [];
    assert SetsEvents(book, sourceId, sets) == SetEvents(book, sourceId, sets[0]) + [];
  }

  /**
   * Which is why one message decoded says less: two sets that cannot be cut may make up for
   * each other, the second one's padding being taken for the record lost in the first.
   */
  lemma MadeUpByChance(m: Memory, p: nat, sourceId: nat, now: int, s: State, book: Book,
                       templateId: nat, id: nat, b: byte)
    requires SET_DATA_START <= templateId < U16 && id < ENTERPRISE && InForce(s.table, book)
    requires Key(sourceId, templateId) in book && book[Key(sourceId, templateId)] == [FieldSpec(id, VARIABLE, 0)]
    requires Holds(m, p, Put16(templateId) + Put16(6) + [1 as byte, b]
                   + (Put16(templateId) + Put16(8) + [1 as byte, b, 0, 0]))
    ensures var sets := [Lost(templateId, b), Stray(templateId, b)];
            && ValidSets(book, sourceId, sets)
            && !Decodable(book, sourceId, sets[0]) && !Decodable(book, sourceId, sets[1])
            && Means(Sets(m, p, p + 14, sourceId, now, s), s, AfterSets(book, sourceId, sets),
                     SetsEvents(book, sourceId, sets))
  {
    var first, second := Put16(templateId) + Put16(6) + [1 as byte, b], Put16(templateId) + Put16(8)
      + [1 as byte, b, 0, 0];
    LostAndStray(book, sourceId, templateId, id, b);
    HoldsParts(m, p, first, second);
    LostPasses(m, p, sourceId, now, s, book, templateId, id, b);
    StrayReports(m, p + 6, sourceId, now, s, book, templateId, id, b);
    assert Sets(m, p, p + 14, sourceId, now, s) == Sets(m, p + 6, p + 14, sourceId, now, s);
  }

  lemma LostPasses(m: Memory, p: nat, sourceId: nat, now: int, s: State, book: Book, templateId: nat, id: nat, b: byte)
    requires SET_DATA_START <= templateId < U16 && id < ENTERPRISE && InForce(s.table, book)
    requires Key(sourceId, templateId) in book && book[Key(sourceId, templateId)] == [FieldSpec(id, VARIABLE, 0)]
    requires Holds(m, p, Put16(templateId) + Put16(6) + [1 as byte, b])
    ensures SetAt(m, p, sourceId, now, s) == Done(s) && Net16(m, p + 2) == 6
  {
    assert Put16(templateId) + Put16(6) + [1 as byte, b] == Put16(templateId) + Put16(6) + ([1 as byte, b] + []);
    ShortRecordIsLost(m, p, sourceId, now, s, book, templateId, id, b, []);
    HeaderAt(m, p, templateId, 6, [1, b]);
  }

  lemma StrayReports(m: Memory, p: nat, sourceId: nat, now: int, s: State, book: Book,
                     templateId: nat, id: nat, b: byte)
    requires SET_DATA_START <= templateId < U16 && id < ENTERPRISE && InForce(s.table, book)
    requires Key(sourceId, templateId) in book && book[Key(sourceId, templateId)] == [FieldSpec(id, VARIABLE, 0)]
    requires Holds(m, p, Put16(templateId) + Put16(8) + [1 as byte, b, 0, 0])
    ensures Means(Sets(m, p, p + 8, sourceId, now, s), s, book, [Record(Key(sourceId, templateId), 2, [[b]])])
  {
    assert Put16(templateId) + Put16(8) + [1 as byte, b, 0, 0]
        == Put16(templateId) + Put16(8) + ([1 as byte, b] + [0, 0]);
    ShortRecordIsLost(m, p, sourceId, now, s, book, templateId, id, b, [0, 0]);
    HeaderAt(m, p, templateId, 8, [1, b, 0, 0]);
    SetsEndAt(m, p, p + 8, sourceId, now, s);
  }

  lemma HeaderAt(m: Memory, p: nat, id: nat, length: nat, body: seq<byte>)
    requires id < U16 && length < U16 && Holds(m, p, Put16(id) + Put16(length) + body)
    ensures Net16(m, p) == id && Net16(m, p + 2) == length
  {
    HoldsParts(m, p, Put16(id) + Put16(length), body);
    HoldsParts(m, p, Put16(id), Put16(length));
    Holds16(m, p, id);
    Holds16(m, p + 2, length);
  }
}
