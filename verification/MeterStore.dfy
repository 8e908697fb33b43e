/**
 The store of meter readings. A reading has a flag for each figure, or group of figures, that is present;
 only those are bound to columns, and what is null reads back as zero or empty.
 */
module MeterStore {
  import opened Doubling
  import opened Wrappers

  /** Text fields hold `size - 1` characters, whole numbers lie below `limit`. */
  datatype Kind = TextKind(size: nat) | WholeKind(limit: nat) | NumberKind

  datatype Column = Column(flag: nat, kind: Kind)

  datatype Value = Text(text: string) | Whole(whole: nat) | Number(number: real)

  datatype Cell = Null | Bound(value: Value)

  datatype Reading = Reading(flags: set<nat>, fields: seq<Value>)

  datatype Stored = Stored(receivedAt: int, flags: set<nat>, cells: seq<Cell>)

  datatype Row = Row(receivedAt: int, reading: Reading)

  const POWER_FLAG := 15
  const WORD16 := 0x1_0000
  const WORD8 := 0x100
  const WORD32 := 0x1_0000_0000

  /** The columns behind `present_flags`, in the order in which they are bound and read. */
  const COLUMNS: seq<Column> := [
    Column(0, TextKind(64)), Column(2, TextKind(64)), Column(3, TextKind(20)),
    Column(1, WholeKind(WORD16)), Column(4, WholeKind(WORD8)),
    Column(5, NumberKind), Column(6, NumberKind), Column(7, NumberKind), Column(8, NumberKind), Column(9, NumberKind),
    Column(10, NumberKind), Column(11, NumberKind), Column(12, NumberKind), Column(13, NumberKind),
    Column(14, NumberKind),
    Column(15, NumberKind), Column(16, NumberKind), Column(17, NumberKind), Column(18, NumberKind),
    Column(19, NumberKind), Column(20, NumberKind), Column(21, NumberKind), Column(22, NumberKind),
    Column(23, NumberKind), Column(24, NumberKind), Column(25, NumberKind), Column(26, NumberKind),
    Column(27, NumberKind),
    Column(28, WholeKind(WORD32)), Column(28, WholeKind(WORD32)), Column(28, WholeKind(WORD32)),
    Column(29, WholeKind(WORD32)), Column(29, WholeKind(WORD32)), Column(29, WholeKind(WORD32)),
    Column(30, WholeKind(WORD32)), Column(30, WholeKind(WORD32)),
    Column(31, NumberKind), Column(32, NumberKind), Column(32, TextKind(20))
  ]

  // ---------------------------------------------------------------- columns

  predicate Fits(k: Kind, v: Value) {
    match k
    case TextKind(size) => v.Text? && |v.text| < size
    case WholeKind(limit) => v.Whole? && v.whole < limit
    case NumberKind => v.Number?
  }

  function Zero(k: Kind): Value {
    match k
    case TextKind(_) => Text("")
    case WholeKind(_) => Whole(0)
    case NumberKind => Number(0.0)
  }

  /** Null unless the flag is set; an empty text is null as well. */
  function Bind(c: Column, flags: set<nat>, v: Value): Cell {
    if c.flag !in flags || v == Text("") then Null else Bound(v)
  }

  /** Texts are cut to the field, whole numbers to its width. */
  function Fetch(k: Kind, cell: Cell): Value {
    match k
    case TextKind(size) =>
      if cell.Bound? && cell.value.Text? && size > 0 then
        var t := cell.value.text; Text(if |t| < size then t else t[..size - 1])
      else Text("")
    case WholeKind(limit) =>
      if cell.Bound? && cell.value.Whole? && limit > 0 then Whole(cell.value.whole % limit) else Whole(0)
    case NumberKind =>
      if cell.Bound? && cell.value.Number? then Number(cell.value.number) else Number(0.0)
  }

  predicate Valid(cols: seq<Column>, r: Reading) {
    |r.fields| == |cols| && forall j :: 0 <= j < |cols| ==> Fits(cols[j].kind, r.fields[j])
  }

  function Insert(cols: seq<Column>, r: Reading, at: int): Stored
    requires |r.fields| == |cols|
  {
    Stored(at, r.flags, seq(|cols|, j requires 0 <= j < |cols| => Bind(cols[j], r.flags, r.fields[j])))
  }

  function ReadRow(cols: seq<Column>, s: Stored): Row
    requires |s.cells| == |cols|
  {
    Row(s.receivedAt, Reading(s.flags, seq(|cols|, j requires 0 <= j < |cols| => Fetch(cols[j].kind, s.cells[j]))))
  }

  /** Fields whose flag is not set hold nothing. */
  predicate Tidy(cols: seq<Column>, r: Reading)
    requires |r.fields| == |cols|
  {
    forall j :: 0 <= j < |cols| && cols[j].flag !in r.flags ==> r.fields[j] == Zero(cols[j].kind)
  }

  lemma FetchBind(c: Column, flags: set<nat>, v: Value)
    requires Fits(c.kind, v)
    ensures Fetch(c.kind, Bind(c, flags, v)) == if c.flag in flags then v else Zero(c.kind)
  {
  }

  /** A stored reading reads back unchanged exactly if its absent fields hold nothing. */
  lemma RoundTripIff(cols: seq<Column>, r: Reading, at: int)
    requires Valid(cols, r)
    ensures ReadRow(cols, Insert(cols, r, at)) == Row(at, r) <==> Tidy(cols, r)
  {
    var back := ReadRow(cols, Insert(cols, r, at)).reading;
    forall j | 0 <= j < |cols|
      ensures back.fields[j] == if cols[j].flag in r.flags then r.fields[j] else Zero(cols[j].kind)
    {
      FetchBind(cols[j], r.flags, r.fields[j]);
    }
    if Tidy(cols, r) {
      assert back.fields == r.fields;
    }
  }

  // ---------------------------------------------------------------- a parsed reading

  datatype Json = JText(text: string) | JNumber(number: real) | JOther

  /** What a field takes from its item; `None` if the item has another type. */
  function Convert(k: Kind, j: Json): Option<Value> {
    match k
    case TextKind(size) =>
      if j.JText? && size > 0 then Some(Text(if |j.text| < size then j.text else j.text[..size - 1])) else None
    case WholeKind(limit) =>
      if j.JNumber? && limit > 0 then Some(Whole(j.number.Floor % limit)) else None
    case NumberKind => if j.JNumber? then Some(Number(j.number)) else None
  }

  /** `json` holds the item found for each column, if there is one. */
  predicate Found(cols: seq<Column>, json: map<nat, Json>, j: nat) {
    j < |cols| && j in json && Convert(cols[j].kind, json[j]).Some?
  }

  /** Columns of a group are tried until one is found; the rest of the group is not looked at. */
  predicate Taken(cols: seq<Column>, json: map<nat, Json>, j: nat) {
    Found(cols, json, j) && forall i :: 0 <= i < j && cols[i].flag == cols[j].flag ==> !Found(cols, json, i)
  }

  function Fields(cols: seq<Column>, json: map<nat, Json>): (f: seq<Value>)
    ensures |f| == |cols|
    ensures forall j :: 0 <= j < |cols| ==>
      f[j] == if Taken(cols, json, j) then Convert(cols[j].kind, json[j]).value else Zero(cols[j].kind)
  {
    seq(|cols|, j requires 0 <= j < |cols| =>
      if Taken(cols, json, j) then Convert(cols[j].kind, json[j]).value else Zero(cols[j].kind))
  }

  function Flags(cols: seq<Column>, json: map<nat, Json>): set<nat> {
    set j | 0 <= j < |cols| && Found(cols, json, j) :: cols[j].flag
  }

  function Parse(cols: seq<Column>, json: map<nat, Json>): Option<Reading> {
    var r := Reading(Flags(cols, json), Fields(cols, json));
    if POWER_FLAG in r.flags then Some(r) else None
  }

  predicate Wide(cols: seq<Column>) {
    forall j :: 0 <= j < |cols| ==>
      match cols[j].kind
      case TextKind(size) => size > 0
      case WholeKind(limit) => limit > 0
      case NumberKind => true
  }

  lemma ColumnsAreWide()
    ensures Wide(COLUMNS) && |COLUMNS| == 39
  {
  }

  /** Whatever the parser accepts is stored and read back unchanged. */
  lemma ParsedReadingSurvives(cols: seq<Column>, json: map<nat, Json>, at: int)
    requires Wide(cols) && Parse(cols, json).Some?
    ensures Valid(cols, Parse(cols, json).value)
    ensures ReadRow(cols, Insert(cols, Parse(cols, json).value, at)) == Row(at, Parse(cols, json).value)
  {
    var r := Parse(cols, json).value;
    forall j | 0 <= j < |cols|
      ensures Fits(cols[j].kind, r.fields[j])
      ensures Taken(cols, json, j) ==> cols[j].flag in r.flags
    {
    }
    assert Tidy(cols, r);
    RoundTripIff(cols, r, at);
  }

  /** Of a group with a common flag only the first figure given is kept. */
  lemma GroupKeepsFirst(cols: seq<Column>, json: map<nat, Json>, i: nat, j: nat)
    requires i < j < |cols| && cols[i].flag == cols[j].flag && Found(cols, json, i)
    ensures Fields(cols, json)[j] == Zero(cols[j].kind) && cols[j].flag in Flags(cols, json)
  {
    assert !Taken(cols, json, j);
    assert cols[i].flag in Flags(cols, json);
  }

  /** What a field holds of its item: the number, its whole part if it is in range, the text up to its size. */
  predicate Holds(f: Value, k: Kind, item: Json) {
    match k
    case NumberKind => item.JNumber? && f == Number(item.number)
    case WholeKind(limit) => (
      && item.JNumber? && f.Whole? && f.whole < limit
      && (0.0 <= item.number < limit as real ==> f.whole as real <= item.number < (f.whole + 1) as real))
    case TextKind(size) => (
      && item.JText? && f.Text? && |f.text| < size
      && (if |item.text| < size then f.text == item.text else |f.text| == size - 1 && f.text <= item.text))
  }

  lemma ConvertHolds(k: Kind, item: Json)
    requires Convert(k, item).Some?
    ensures Holds(Convert(k, item).value, k, item)
  {
    if k.WholeKind? && 0.0 <= item.number < k.limit as real {
      var n := item.number.Floor;
      SmallMod(n, k.limit);
    }
  }

  lemma SmallMod(x: nat, m: nat)
    requires x < m
    ensures x % m == x
  {
  }

  /** A figure that is accepted, as the first of its group, is in its field when the reading is read back. */
  lemma FigureIsRead(cols: seq<Column>, json: map<nat, Json>, j: nat, at: int)
    requires Wide(cols) && Parse(cols, json).Some? && Found(cols, json, j)
    requires forall i :: 0 <= i < j && cols[i].flag == cols[j].flag ==> !Found(cols, json, i)
    ensures Valid(cols, Parse(cols, json).value)
    ensures Holds(ReadRow(cols, Insert(cols, Parse(cols, json).value, at)).reading.fields[j], cols[j].kind, json[j])
  {
    ParsedReadingSurvives(cols, json, at);
    ConvertHolds(cols[j].kind, json[j]);
  }

  lemma PowerColumn()
    ensures |COLUMNS| == 39 && forall j :: 0 <= j < 39 ==> (COLUMNS[j].flag == 15 <==> j == 15)
    ensures COLUMNS[15].kind == NumberKind
  {
  }

  lemma FlagIsFound(cols: seq<Column>, json: map<nat, Json>, flag: nat)
    ensures flag in Flags(cols, json) <==> exists j :: 0 <= j < |cols| && Found(cols, json, j) && cols[j].flag == flag
  {
  }

  /** A reading is accepted exactly if the momentary power is given as a number. */
  lemma AcceptedIffPower(json: map<nat, Json>)
    ensures Parse(COLUMNS, json).Some? <==> 15 in json && json[15].JNumber?
  {
    PowerColumn();
    FlagIsFound(COLUMNS, json, 15);
    ConvertNumber(json, 15);
  }

  lemma ConvertNumber(json: map<nat, Json>, j: nat)
    requires j < |COLUMNS| && COLUMNS[j].kind == NumberKind
    ensures Found(COLUMNS, json, j) <==> j in json && json[j].JNumber?
  {
  }

  // ---------------------------------------------------------------- the store

  const FIRST_ROWS := 128

  /** No array yet, or one that doubling can reach. */
  predicate HasCapacity(c: nat) {
    c == 0 || IsCapacity(FIRST_ROWS, c)
  }

  predicate InTime(rows: seq<Stored>) {
    forall i, j :: 0 <= i < j < |rows| ==> rows[i].receivedAt <= rows[j].receivedAt
  }

  function Within(table: seq<Stored>, from: int, until: int): seq<Stored> {
    if table == [] then []
    else
      var last := table[|table| - 1];
      Within(table[..|table| - 1], from, until) + (if from <= last.receivedAt < until then [last] else [])
  }

  /** The rows of the range, each as often as it was stored, in order of time. */
  predicate Answers(table: seq<Stored>, from: int, until: int, rows: seq<Stored>) {
    InTime(rows) && multiset(rows) == multiset(Within(table, from, until))
  }

  class Store {
    var table: seq<Stored>

    ghost predicate Valid()
      reads this
    {
      forall s :: s in table ==> |s.cells| == |COLUMNS|
    }

    method InsertReading(r: Reading, now: int)
      requires Valid() && |r.fields| == |COLUMNS|
      modifies this
      ensures Valid() && table == old(table) + [Insert(COLUMNS, r, now)]
    {
      table := table + [Insert(COLUMNS, r, now)];
    }

    /** `answer` is what the database gives for the range; the rows are kept in an array that doubles. */
    method ReadRange(from: int, until: int, answer: seq<Stored>) returns (rows: array<Row>, count: nat)
      requires Valid() && Answers(table, from, until, answer)
      ensures fresh(rows) && count == |answer| <= rows.Length && HasCapacity(rows.Length)
      ensures rows.Length == 0 || rows.Length == 128 || rows.Length < 2 * count
      ensures forall i :: 0 <= i < count ==> |answer[i].cells| == |COLUMNS| && rows[i] == ReadRow(COLUMNS, answer[i])
    {
      AnswerIsStored(table, from, until, answer);
      rows, count := new Row[0], 0;
      while count < |answer|
        invariant fresh(rows) && count <= |answer| && count <= rows.Length && HasCapacity(rows.Length)
        invariant rows.Length == 0 || rows.Length == FIRST_ROWS || rows.Length < 2 * count
        invariant forall i :: 0 <= i < count ==> rows[i] == ReadRow(COLUMNS, answer[i])
      {
        if count == rows.Length {
          var capacity := if rows.Length == 0 then FIRST_ROWS else rows.Length * 2;
          var more := new Row[capacity];
          forall i | 0 <= i < count {
            more[i] := rows[i];
          }
          rows := more;
        }
        rows[count] := ReadRow(COLUMNS, answer[count]);
        count := count + 1;
      }
    }
  }

  lemma {:induction false} WithinIsStored(table: seq<Stored>, from: int, until: int)
    ensures forall s :: s in Within(table, from, until) ==> s in table && from <= s.receivedAt < until
  {
    if table != [] {
      WithinIsStored(table[..|table| - 1], from, until);
    }
  }

  lemma AnswerIsStored(table: seq<Stored>, from: int, until: int, rows: seq<Stored>)
    requires Answers(table, from, until, rows)
    ensures forall i :: 0 <= i < |rows| ==> rows[i] in table && from <= rows[i].receivedAt < until
  {
    WithinIsStored(table, from, until);
    forall i | 0 <= i < |rows|
      ensures rows[i] in Within(table, from, until)
    {
      assert rows[i] in multiset(rows);
    }
  }

  lemma {:induction false} WithinHasLast(table: seq<Stored>, s: Stored, from: int, until: int)
    requires from <= s.receivedAt < until
    ensures s in Within(table + [s], from, until)
  {
    assert (table + [s])[..|table|] == table;
  }

  /** A parsed reading that is stored is among the rows of every range around its time, unchanged. */
  lemma InsertedIsRead(table: seq<Stored>, json: map<nat, Json>, now: int, from: int, until: int, answer: seq<Stored>)
    requires Parse(COLUMNS, json).Some? && from <= now < until
    requires Answers(table + [Insert(COLUMNS, Parse(COLUMNS, json).value, now)], from, until, answer)
    ensures exists i :: 0 <= i < |answer| && |answer[i].cells| == |COLUMNS|
                        && ReadRow(COLUMNS, answer[i]) == Row(now, Parse(COLUMNS, json).value)
  {
    var s := Insert(COLUMNS, Parse(COLUMNS, json).value, now);
    WithinHasLast(table, s, from, until);
    assert s in multiset(answer);
    ColumnsAreWide();
    ParsedReadingSurvives(COLUMNS, json, now);
  }
}
