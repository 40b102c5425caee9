/**
 * What the collecting process makes of an IPFIX message: template announcements and
 * withdrawals, and data records cut into field values.  Positions index the memory the
 * message was received into; what lies behind the message is arbitrary.
 */
module IpfixMessage {
  import opened Bytes
  import opened Templates

  const VARIABLE := 65535
  const SET_TEMPLATE := 2
  const SET_DATA_START := 256
  const ENTERPRISE := 0x8000

  type Memory = seq<byte>

  /** Memory that was never received into reads as zero; no result below depends on it. */
  function At(m: Memory, p: nat): (b: nat)
    ensures b < 256
  {
    if p < |m| then m[p] as nat else 0
  }

  /** ntohs and ntohl of the octets at p. */
  function Net16(m: Memory, p: nat): (n: nat)
    ensures n < U16
  {
    256 * At(m, p) + At(m, p + 1)
  }

  function Net32(m: Memory, p: nat): (n: nat)
    ensures n < U32
  {
    U16 * Net16(m, p) + Net16(m, p + 2)
  }

  function Slice(m: Memory, p: nat, n: nat): (s: seq<byte>)
    ensures |s| == n
  {
    seq(n, i requires i >= 0 => At(m, p + i) as byte)
  }

  /** The callbacks the parser makes. */
  datatype Event =
    | Destroyed(key: Key)
    | Announced(key: Key, fields: seq<FieldInfo>)
    | Record(key: Key, length: nat, values: seq<seq<byte>>)

  datatype State = State(table: Table, events: seq<Event>)

  /** Loops: the program does not return.  OutOfScope: a set type this model does not cover. */
  datatype Outcome = Done(state: State) | Rejected | Loops | OutOfScope

  // ---------------------------------------------------------------- template sets

  /** The field specifier at p, and the position behind it. */
  function SpecAt(m: Memory, p: nat, offset: nat): (r: (FieldInfo, nat))
    ensures r.1 >= p
  {
    var id, length := Net16(m, p), Net16(m, p + 2);
    if id >= ENTERPRISE then (FieldInfo(id, length, length == VARIABLE, Net32(m, p + 4), offset), p + 8)
    else (FieldInfo(id, length, length == VARIABLE, 0, offset), p + 4)
  }

  /** The field loop: the fields, the position behind them, and the summed record length. */
  function ParseFields(m: Memory, p: nat, count: nat, recordLength: nat): (r: (seq<FieldInfo>, nat, nat))
    ensures |r.0| == count && r.1 >= p
    decreases count
  {
    if count == 0 then ([], p, recordLength)
    else
      var (f, q) := SpecAt(m, p, recordLength);
      var (fs, end, total) := ParseFields(m, q, count - 1, (recordLength + f.length) % U16);
      ([f] + fs, end, total)
  }

  predicate Varies(fields: seq<FieldInfo>) {
    exists i :: 0 <= i < |fields| && fields[i].length == VARIABLE
  }

  function Unplaced(fields: seq<FieldInfo>): (r: seq<FieldInfo>)
    ensures |r| == |fields|
  {
    seq(|fields|, i requires 0 <= i < |fields| => fields[i].(offset := VARIABLE))
  }

  /** The template a parsed record announces. */
  function Announcement(setId: nat, fields: seq<FieldInfo>, recordLength: nat): Template {
    if Varies(fields) then Template(VARIABLE, setId, 0, Unplaced(fields)) else Template(recordLength, setId, 0, fields)
  }

  function Withdraw(s: State, k: Key): State {
    State(s.table - {k}, s.events + if k in s.table then [Destroyed(k)] else [])
  }

  function Announce(s: State, k: Key, t: Template): State {
    State(s.table[k := t], Withdraw(s, k).events + [Announced(k, t.fields)])
  }

  /** One template record at p: the new state and the position behind the record. */
  function TemplateRecordAt(m: Memory, p: nat, sourceId: nat, setId: nat, s: State): (r: (State, nat))
    ensures r.1 >= p + 4
  {
    var k := Key(sourceId, Net16(m, p));
    var count := Net16(m, p + 2);
    if count == 0 then (Withdraw(s, k), p + 4)
    else
      var (fields, q, total) := ParseFields(m, p + 4, count, 0);
      (Announce(s, k, Announcement(setId, fields, total)), q)
  }

  /** processTemplateSet from record position p. */
  function TemplateSet(m: Memory, p: nat, end: nat, sourceId: nat, setId: nat, s: State): State
    decreases end - p
  {
    if p + 3 >= end then s
    else
      var (s', q) := TemplateRecordAt(m, p, sourceId, setId, s);
      TemplateSet(m, q, end, sourceId, setId, s')
  }

  // ---------------------------------------------------------------- data sets

  /** What a consumer finds through the field infos: data + offset, length octets. */
  function Values(m: Memory, record: nat, fields: seq<FieldInfo>): (r: seq<seq<byte>>)
    ensures |r| == |fields|
  {
    if fields == [] then []
    else [Slice(m, record + fields[0].offset, fields[0].length)] + Values(m, record, fields[1..])
  }

  /** The loop over fixed-length records up to recordX; None if it never ends. */
  function FixedRecords(m: Memory, record: nat, recordX: nat, k: Key, t: Template): (r: (bool, seq<Event>))
    decreases recordX - record
  {
    if record + t.recordLength > recordX then (true, [])
    else if t.recordLength == 0 then (false, [])
    else
      var (ends, es) := FixedRecords(m, record + t.recordLength, recordX, k, t);
      (ends, [Record(k, t.recordLength, Values(m, record, t.fields))] + es)
  }

  /** Where, from p on, a field's octets start and how many they are. */
  function FieldAt(m: Memory, p: nat, f: FieldInfo): (r: (nat, nat))
    ensures r.0 >= p
  {
    if !f.isVariable then (p, f.length)
    else if At(m, p) == 255 then (p + 3, Net16(m, p + 1))
    else (p + 1, At(m, p))
  }

  /** The field loop over one variable-length record: the placed fields and the record's length. */
  function Walk(m: Memory, record: nat, fields: seq<FieldInfo>, recordLength: nat): (r: (seq<FieldInfo>, nat))
    ensures |r.0| == |fields| && r.1 >= recordLength
    decreases |fields|
  {
    if fields == [] then ([], recordLength)
    else
      var (start, length) := FieldAt(m, record + recordLength, fields[0]);
      var (fs, total) := Walk(m, record, fields[1..], start - record + length);
      ([fields[0].(offset := (start - record) % U16, length := length)] + fs, total)
  }

  /** The loop over variable-length records: whether it ends, the field infos it leaves, and the records. */
  function VariableRecords(m: Memory, record: nat, recordX: nat, k: Key, fields: seq<FieldInfo>)
    : (r: (bool, seq<FieldInfo>, seq<Event>))
    decreases recordX - record
  {
    if record + 3 >= recordX then (true, fields, [])
    else
      var (placed, length) := Walk(m, record, fields, 0);
      if length == 0 then (false, placed, [])
      else
        var (ends, left, es) := VariableRecords(m, record + length, recordX, k, placed);
        (ends, left, [Record(k, length % U16, Values(m, record, placed))] + es)
  }

  /** processDataSet for the set at p. */
  function DataSet(m: Memory, p: nat, sourceId: nat, now: int, s: State): Outcome {
    var k := Key(sourceId, Net16(m, p));
    var table := AfterGet(s.table, k, now);
    var s' := s.(table := table, events := if table == s.table then s.events else s.events + [Destroyed(k)]);
    if k !in table then Done(s')
    else if table[k].setId != SET_TEMPLATE && table[k].setId != 0 then OutOfScope
    else
      var t := table[k];
      var length := (Net16(m, p + 2) + U16 - 4) % U16;
      if t.recordLength < VARIABLE then
        var (ends, es) := FixedRecords(m, p + 4, p + 4 + length, k, t);
        if ends then Done(s'.(events := s'.events + es)) else Loops
      else
        var (ends, left, es) := VariableRecords(m, p + 4, p + 4 + length, k, t.fields);
        if ends then Done(State(table[k := t.(fields := left)], s'.events + es)) else Loops
  }

  // ---------------------------------------------------------------- messages

  /** The set at p, as processIpfixPacket dispatches on its id. */
  function SetAt(m: Memory, p: nat, sourceId: nat, now: int, s: State): (r: Outcome)
    ensures !r.Rejected?
  {
    var id := Net16(m, p);
    if id == SET_TEMPLATE then Done(TemplateSet(m, p + 4, p + Net16(m, p + 2), sourceId, id, s))
    else if id == 3 || id == 4 then OutOfScope
    else if id >= SET_DATA_START then DataSet(m, p, sourceId, now, s)
    else Done(s)
  }

  /** The set loop of processIpfixPacket from set position p. */
  function Sets(m: Memory, p: nat, end: nat, sourceId: nat, now: int, s: State): (r: Outcome)
    ensures !r.Rejected?
    decreases end - p
  {
    if p >= end then Done(s)
    else
      var r := SetAt(m, p, sourceId, now, s);
      if !r.Done? then r
      else if Net16(m, p + 2) == 0 then Loops
      else Sets(m, p + Net16(m, p + 2), end, sourceId, now, r.state)
  }

  /** processIpfixPacket on the length octets received at the start of m. */
  function Process(m: Memory, length: nat, now: int, s: State): Outcome {
    if Net16(m, 2) != length then Rejected
    else Sets(m, 16, length, Net32(m, 12), now, s)
  }
}
