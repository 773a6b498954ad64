/**
  Result rows of the Node bindings in two shapes: row objects (result.rs) and columnar chunks
  (columnar.rs). The columnar path is the fast form of the row path.
 */
module Columnar {
  import opened Common

  // ---------------------------------------------------------------------------
  // Values
  // ---------------------------------------------------------------------------

  type I16 = x: int | -0x8000 <= x < 0x8000
  type I32 = x: int | -0x8000_0000 <= x < 0x8000_0000
  type I64 = x: int | -0x8000_0000_0000_0000 <= x < 0x8000_0000_0000_0000

  /** Floating-point numbers and decimals are opaque; their conversions are below. */
  datatype F32 = F32(bits: nat)
  datatype F64 = F64(bits: nat)
  datatype Numeric = Numeric(unscaled: int, scale: nat)

  datatype SqlType =
    | Bool | SmallInt | Int | Oid | BigInt | Float | Double | NumericType
    | ByteA | Date | Time | Timestamp | TimestampTz | Text

  /** Rust's conversions, whatever they are, and the text of dates and timestamps. */
  datatype Conversions = Conversions(
    zero32: F32,
    zero: F64,
    widen: F32 -> F64,
    ofI32: I32 -> F64,
    ofI64: I64 -> F64,
    ofNumeric: Numeric -> F64,
    f32ToI32: F32 -> I32,
    toI32: F64 -> I32,
    toI64: F64 -> I64,
    round: real -> real,
    showDate: I32 -> string,
    showTimestamp: I64 -> string)
  {
    /**
      Zero is zero in every type, widening does not change what a float converts to, and rounding
      to 64-bit floating point keeps the integers that have a 53-bit significand.
     */
    ghost predicate Lawful() {
      && widen(zero32) == zero && ofI32(0) == zero && ofI64(0) == zero
      && toI32(zero) == 0 && toI64(zero) == 0
      && (forall x :: toI32(widen(x)) == f32ToI32(x))
      && RoundsExactly()
    }

    ghost predicate RoundsExactly() {
      forall n: int :: IsExact(n) ==> round(n as real) == n as real
    }
  }

  /** What 64-bit floating point adds for fractions: it rounds to the nearest value it holds. */
  ghost predicate RoundsToNearest(conv: Conversions) {
    && conv.RoundsExactly()
    && (forall n: int :: Significand(n) ==> conv.round(Eighths(n)) == Eighths(n))
    && (forall n: int :: Significand(n) ==> conv.round(Steps(n)) == Steps(n))
    && (forall x: real :: Near(x, conv.round(x)))
    && (forall n: int, x: real :: Nearest(n, x) ==> conv.round(x) == Steps(n))
  }

  predicate Significand(n: int) {
    -0x20_0000_0000_0000 <= n <= 0x20_0000_0000_0000
  }

  /** Above any rounding error near zero. */
  const TINY := 0.000_000_000_000_000_000_000_000_000_001

  function Eighths(n: int): real {
    n as real / 8.0
  }

  /** Between 2^39 and 2^40, 64-bit floating point holds the multiples of 1/8192. */
  function Steps(n: int): real {
    n as real / 8192.0
  }

  function Size(x: real): real {
    if x >= 0.0 then x else -x
  }

  /** `y` is what `x` may be rounded to. */
  predicate Near(x: real, y: real) {
    Size(x) <= 1_000_000_000_000_000_000.0 ==> Size(y - x) <= Size(x) / 9_007_199_254_740_992.0 + TINY
  }

  /** `n` steps are the one nearest value to `x`. */
  predicate Nearest(n: int, x: real) {
    549_755_813_888.0 <= x < 1_099_511_627_776.0 && Size(x - Steps(n)) < 1.0 / 16384.0
  }

  /** Some of the integers that 64-bit floating point holds exactly. */
  predicate IsExact(n: int) {
    (-0x20_0000_0000_0000 <= n <= 0x20_0000_0000_0000) ||
    (n % 1024 == 0 && -0x8000_0000_0000_0000 <= n <= 0x8000_0000_0000_0000)
  }

  /** What the typed accessors of a result row answer for one column. */
  datatype Cell = Cell(
    isNull: bool,
    b: Option<bool>,
    i16: Option<I16>,
    i32: Option<I32>,
    i64: Option<I64>,
    f32: Option<F32>,
    f64: Option<F64>,
    numeric: Option<Numeric>,
    date: Option<I32>,
    time: Option<string>,
    timestamp: Option<I64>,
    bytes: Option<seq<int>>,
    text: Option<string>)

  type Row = seq<Cell>

  const ABSENT := Cell(true, None, None, None, None, None, None, None, None, None, None, None, None)

  /** A column a row does not have is null. */
  function CellAt(row: Row, c: nat): Cell {
    if c < |row| then row[c] else ABSENT
  }

  function Or<T>(o: Option<T>, default: T): T {
    if o.Some? then o.value else default
  }

  // ---------------------------------------------------------------------------
  // The row path
  // ---------------------------------------------------------------------------

  /** Dates and timestamps are Unix milliseconds; each operation on them rounds. */
  datatype CellValue =
    | Null
    | VBool(b: bool) | VI16(i16: I16) | VI32(i32: I32) | VI64(i64: I64)
    | VF32(f32: F32) | VF64(f64: F64) | VString(s: string) | VBytes(bytes: seq<int>)
    | VNumeric(numeric: Numeric) | VDate(dateMs: real) | VTimestamp(timestampMs: real)

  /** The Unix time, in milliseconds, of the database's epoch, 2000-01-01. */
  const EPOCH_MS := 946_684_800_000.0
  const DAY_MS := 86_400_000.0

  function DaysToMs(conv: Conversions, days: I32): real {
    conv.round(conv.round(days as real * DAY_MS) + EPOCH_MS)
  }

  function MicrosToMs(conv: Conversions, micros: I64): real {
    conv.round(conv.round(conv.round(micros as real) / 1000.0) + EPOCH_MS)
  }

  /** Rust's `as i32`: truncate, then saturate. */
  function AsI32(x: real): I32
  {
    var n := if x >= 0.0 then x.Floor else -(-x).Floor;
    if n < -0x8000_0000 then -0x8000_0000 else if n >= 0x8000_0000 then 0x7FFF_FFFF else n
  }

  function MsToDays(conv: Conversions, ms: real): I32 {
    AsI32(conv.round(conv.round(ms - EPOCH_MS) / DAY_MS))
  }

  /** Rust's `as i64`. */
  function AsI64(x: real): I64
  {
    var n := if x >= 0.0 then x.Floor else -(-x).Floor;
    if n < -0x8000_0000_0000_0000 then -0x8000_0000_0000_0000
    else if n >= 0x8000_0000_0000_0000 then 0x7FFF_FFFF_FFFF_FFFF
    else n
  }

  function MsToMicros(conv: Conversions, ms: real): I64 {
    AsI64(conv.round(conv.round(ms - EPOCH_MS) * 1000.0))
  }

  /** One cell of `extract_row`. */
  function RowValue(conv: Conversions, t: SqlType, cell: Cell): CellValue
  {
    if cell.isNull then Null
    else
      match t
      case Bool => VBool(Or(cell.b, false))
      case SmallInt => VI16(Or(cell.i16, 0))
      case Int => VI32(Or(cell.i32, 0))
      case Oid => VI32(Or(cell.i32, 0))
      case BigInt => VI64(Or(cell.i64, 0))
      case Float => VF32(Or(cell.f32, conv.zero32))
      case Double => VF64(Or(cell.f64, conv.zero))
      case NumericType => if cell.numeric.Some? then VNumeric(cell.numeric.value) else Null
      case ByteA => VBytes(Or(cell.bytes, []))
      case Date => if cell.date.Some? then VDate(DaysToMs(conv, cell.date.value)) else Null
      case Time => if cell.time.Some? then VString(cell.time.value) else Null
      case Timestamp => if cell.timestamp.Some? then VTimestamp(MicrosToMs(conv, cell.timestamp.value)) else Null
      case TimestampTz => if cell.timestamp.Some? then VTimestamp(MicrosToMs(conv, cell.timestamp.value)) else Null
      case Text => VString(Or(cell.text, ""))
  }

  /** Columns beyond the schema are read as text. */
  function TypeAt(types: seq<SqlType>, c: nat): SqlType {
    if c < |types| then types[c] else Text
  }

  /** `extract_row`. */
  method ExtractRow(conv: Conversions, row: Row, types: seq<SqlType>) returns (values: seq<CellValue>)
    ensures |values| == |row|
    ensures forall c :: 0 <= c < |row| ==> values[c] == RowValue(conv, TypeAt(types, c), row[c])
    ensures forall c :: |types| <= c < |row| ==>
              values[c] == if row[c].isNull then Null else VString(Or(row[c].text, ""))
  {
    values := [];
    for c := 0 to |row|
      invariant |values| == c
      invariant forall k :: 0 <= k < c ==> values[k] == RowValue(conv, TypeAt(types, k), row[k])
    {
      if row[c].isNull {
        values := values + [Null];
        continue;
      }
      var t := if c < |types| then types[c] else Text;
      values := values + [RowValue(conv, t, row[c])];
    }
  }

  datatype Answer<T> = Value(value: T) | Throws

  /** `RowData.is_null`. */
  predicate IsNull(v: CellValue) {
    v.Null?
  }

  predicate FitsI32(x: int) {
    -0x8000_0000 <= x < 0x8000_0000
  }

  /** `RowData.get_int32`: it throws on a big integer that does not fit. */
  function GetInt32(conv: Conversions, v: CellValue): Answer<Option<I32>>
  {
    match v
    case VI16(i) => Value(Some(i))
    case VI32(i) => Value(Some(i))
    case VI64(i) => if FitsI32(i) then Value(Some(i)) else Throws
    case VF32(f) => Value(Some(conv.f32ToI32(f)))
    case VF64(f) => Value(Some(conv.toI32(f)))
    case VNumeric(n) => Value(Some(conv.toI32(conv.ofNumeric(n))))
    case _ => Value(None)
  }

  /** `RowData.get_int64`; single-precision cells are not converted. */
  function GetInt64(conv: Conversions, v: CellValue): Option<I64>
  {
    match v
    case VI16(i) => Some(i)
    case VI32(i) => Some(i)
    case VI64(i) => Some(i)
    case VF64(f) => Some(conv.toI64(f))
    case VNumeric(n) => Some(conv.toI64(conv.ofNumeric(n)))
    case _ => None
  }

  /** `RowData.get_float64`. */
  function GetFloat64(conv: Conversions, v: CellValue): Option<F64>
  {
    match v
    case VF32(f) => Some(conv.widen(f))
    case VF64(f) => Some(f)
    case VI16(i) => Some(conv.ofI32(i))
    case VI32(i) => Some(conv.ofI32(i))
    case VI64(i) => Some(conv.ofI64(i))
    case VNumeric(n) => Some(conv.ofNumeric(n))
    case _ => None
  }

  /** `RowData.get_bool`. */
  function GetBool(v: CellValue): Option<bool>
  {
    match v
    case VBool(b) => Some(b)
    case VI16(i) => Some(i != 0)
    case VI32(i) => Some(i != 0)
    case VI64(i) => Some(i != 0)
    case _ => None
  }

  /** `RowData.get_bytes`; text gives its own bytes. */
  function GetBytes(utf8: string -> seq<int>, v: CellValue): Option<seq<int>>
  {
    match v
    case VBytes(bytes) => Some(bytes)
    case VString(s) => Some(utf8(s))
    case _ => None
  }

  /** `RowData.get_string`, on text, null and temporal cells, which are shifted back to days and microseconds. */
  function GetString(conv: Conversions, v: CellValue): Option<string>
    requires v.Null? || v.VString? || v.VDate? || v.VTimestamp?
  {
    match v
    case VString(s) => Some(s)
    case VDate(ms) => Some(conv.showDate(MsToDays(conv, ms)))
    case VTimestamp(ms) => Some(conv.showTimestamp(MsToMicros(conv, ms)))
    case _ => None
  }

  // ---------------------------------------------------------------------------
  // The columnar path
  // ---------------------------------------------------------------------------

  datatype ColumnData =
    | Int32s(ints: seq<I32>) | Int64s(bigs: seq<I64>) | Float64s(floats: seq<F64>) | Strings(strings: seq<string>)

  datatype Kind = KInt32 | KInt64 | KFloat64 | KString

  function KindOf(t: SqlType): Kind
  {
    match t
    case Bool => KInt32
    case SmallInt => KInt32
    case Int => KInt32
    case Oid => KInt32
    case BigInt => KInt64
    case Float => KFloat64
    case Double => KFloat64
    case NumericType => KFloat64
    case _ => KString
  }

  /** What a cell stores in its column; a null leaves the initial zero or empty string. */
  function IntCell(t: SqlType, cell: Cell): I32
  {
    if cell.isNull then 0
    else if t.Bool? then (if Or(cell.b, false) then 1 else 0)
    else if t.SmallInt? then Or(cell.i16, 0)
    else Or(cell.i32, 0)
  }

  function BigCell(cell: Cell): I64 {
    if cell.isNull then 0 else Or(cell.i64, 0)
  }

  function FloatCell(conv: Conversions, t: SqlType, cell: Cell): F64
  {
    if cell.isNull then conv.zero
    else if t.Float? then conv.widen(Or(cell.f32, conv.zero32))
    else if t.Double? then Or(cell.f64, conv.zero)
    else if cell.numeric.Some? then conv.ofNumeric(cell.numeric.value)
    else conv.zero
  }

  function StringCell(conv: Conversions, t: SqlType, cell: Cell): string
  {
    if cell.isNull then ""
    else if t.Date? then (if cell.date.Some? then conv.showDate(cell.date.value) else "")
    else if t.Timestamp? || t.TimestampTz? then
      (if cell.timestamp.Some? then conv.showTimestamp(cell.timestamp.value) else "")
    else Or(cell.text, "")
  }

  /** Column `c` with the first `n` rows filled in. */
  function ColumnUpTo(conv: Conversions, t: SqlType, rows: seq<Row>, c: nat, n: nat): ColumnData
  {
    match KindOf(t)
    case KInt32 => Int32s(seq(|rows|, i requires 0 <= i < |rows| => if i < n then IntCell(t, CellAt(rows[i], c)) else 0))
    case KInt64 => Int64s(seq(|rows|, i requires 0 <= i < |rows| => if i < n then BigCell(CellAt(rows[i], c)) else 0))
    case KFloat64 =>
      Float64s(seq(|rows|, i requires 0 <= i < |rows| => if i < n then FloatCell(conv, t, CellAt(rows[i], c)) else conv.zero))
    case KString =>
      Strings(seq(|rows|, i requires 0 <= i < |rows| => if i < n then StringCell(conv, t, CellAt(rows[i], c)) else ""))
  }

  function NullsUpTo(rows: seq<Row>, c: nat, n: nat): seq<bool> {
    seq(|rows|, i requires 0 <= i < |rows| => i < n && CellAt(rows[i], c).isNull)
  }

  /** `ColumnarChunk`. */
  datatype Chunk = Chunk(columns: seq<ColumnData>, nulls: seq<seq<bool>>, rowCount: nat)

  function Store(conv: Conversions, t: SqlType, data: ColumnData, i: nat, cell: Cell): ColumnData
  {
    match data
    case Int32s(v) => if i < |v| then Int32s(v[i := IntCell(t, cell)]) else data
    case Int64s(v) => if i < |v| then Int64s(v[i := BigCell(cell)]) else data
    case Float64s(v) => if i < |v| then Float64s(v[i := FloatCell(conv, t, cell)]) else data
    case Strings(v) => if i < |v| then Strings(v[i := StringCell(conv, t, cell)]) else data
  }

  lemma StoreFillsOneMore(conv: Conversions, t: SqlType, rows: seq<Row>, c: nat, i: nat)
    requires i < |rows|
    ensures Store(conv, t, ColumnUpTo(conv, t, rows, c, i), i, CellAt(rows[i], c)) == ColumnUpTo(conv, t, rows, c, i + 1)
    ensures CellAt(rows[i], c).isNull ==> ColumnUpTo(conv, t, rows, c, i) == ColumnUpTo(conv, t, rows, c, i + 1)
    ensures NullsUpTo(rows, c, i)[i := CellAt(rows[i], c).isNull] == NullsUpTo(rows, c, i + 1)
    ensures !CellAt(rows[i], c).isNull ==> NullsUpTo(rows, c, i) == NullsUpTo(rows, c, i + 1)
  {
    var before, after := ColumnUpTo(conv, t, rows, c, i), ColumnUpTo(conv, t, rows, c, i + 1);
    match KindOf(t)
    case KInt32 => assert before.ints[i := IntCell(t, CellAt(rows[i], c))] == after.ints;
    case KInt64 => assert before.bigs[i := BigCell(CellAt(rows[i], c))] == after.bigs;
    case KFloat64 => assert before.floats[i := FloatCell(conv, t, CellAt(rows[i], c))] == after.floats;
    case KString => assert before.strings[i := StringCell(conv, t, CellAt(rows[i], c))] == after.strings;
  }

  /** All columns, with rows before `r` filled in, and row `r` in the columns before `c`. */
  function ColumnsUpTo(conv: Conversions, types: seq<SqlType>, rows: seq<Row>, r: nat, c: nat): seq<ColumnData> {
    seq(|types|, k requires 0 <= k < |types| => ColumnUpTo(conv, types[k], rows, k, if k < c then r + 1 else r))
  }

  function AllNullsUpTo(types: seq<SqlType>, rows: seq<Row>, r: nat, c: nat): seq<seq<bool>> {
    seq(|types|, k requires 0 <= k < |types| => NullsUpTo(rows, k, if k < c then r + 1 else r))
  }

  /** Storing one cell, or marking it null, goes on to the next column. */
  lemma CellFillsOneMore(conv: Conversions, types: seq<SqlType>, rows: seq<Row>, r: nat, c: nat)
    requires r < |rows| && c < |types|
    ensures var cell := CellAt(rows[r], c);
            var columns, nulls := ColumnsUpTo(conv, types, rows, r, c), AllNullsUpTo(types, rows, r, c);
            && |nulls[c]| == |rows|
            && ColumnsUpTo(conv, types, rows, r, c + 1) ==
                 (if cell.isNull then columns else columns[c := Store(conv, types[c], columns[c], r, cell)])
            && AllNullsUpTo(types, rows, r, c + 1) ==
                 (if cell.isNull then nulls[c := nulls[c][r := true]] else nulls)
  {
    StoreFillsOneMore(conv, types[c], rows, c, r);
    var columns, nulls := ColumnsUpTo(conv, types, rows, r, c), AllNullsUpTo(types, rows, r, c);
    assert columns[c] == ColumnUpTo(conv, types[c], rows, c, r) && nulls[c] == NullsUpTo(rows, c, r);
  }

  /** A row filled in all columns is a row more. */
  lemma RowFillsOneMore(conv: Conversions, types: seq<SqlType>, rows: seq<Row>, r: nat)
    ensures ColumnsUpTo(conv, types, rows, r, |types|) == ColumnsUpTo(conv, types, rows, r + 1, 0)
    ensures AllNullsUpTo(types, rows, r, |types|) == AllNullsUpTo(types, rows, r + 1, 0)
  {
  }

  /** `extract_chunk_columnar`: allocate the columns, then fill them row by row. */
  method ExtractChunkColumnar(conv: Conversions, rows: seq<Row>, types: seq<SqlType>) returns (chunk: Chunk)
    ensures |chunk.columns| == |chunk.nulls| == |types| && chunk.rowCount == |rows|
    ensures forall c :: 0 <= c < |types| ==> chunk.columns[c] == ColumnUpTo(conv, types[c], rows, c, |rows|)
    ensures forall c :: 0 <= c < |types| ==> chunk.nulls[c] == NullsUpTo(rows, c, |rows|)
  {
    var columns: seq<ColumnData>, nulls: seq<seq<bool>> := [], [];
    for c := 0 to |types|
      invariant |columns| == |nulls| == c
      invariant forall k :: 0 <= k < c ==> columns[k] == ColumnUpTo(conv, types[k], rows, k, 0)
      invariant forall k :: 0 <= k < c ==> nulls[k] == NullsUpTo(rows, k, 0)
    {
      nulls := nulls + [seq(|rows|, _ => false)];
      columns := columns + [ColumnUpTo(conv, types[c], rows, c, 0)];
    }
    for r := 0 to |rows|
      invariant columns == ColumnsUpTo(conv, types, rows, r, 0) && nulls == AllNullsUpTo(types, rows, r, 0)
    {
      for c := 0 to |types|
        invariant columns == ColumnsUpTo(conv, types, rows, r, c) && nulls == AllNullsUpTo(types, rows, r, c)
      {
        var cell := CellAt(rows[r], c);
        CellFillsOneMore(conv, types, rows, r, c);
        if cell.isNull {
          nulls := nulls[c := nulls[c][r := true]];
        } else {
          columns := columns[c := Store(conv, types[c], columns[c], r, cell)];
        }
      }
      RowFillsOneMore(conv, types, rows, r);
    }
    return Chunk(columns, nulls, |rows|);
  }

  /** `get_int32_column`: a big integer out of range fails the whole column. */
  function GetInt32Column(conv: Conversions, data: ColumnData): Answer<seq<I32>>
  {
    match data
    case Int32s(v) => Value(v)
    case Int64s(v) =>
      if forall i :: 0 <= i < |v| ==> FitsI32(v[i]) then
        Value(seq(|v|, i requires 0 <= i < |v| && FitsI32(v[i]) => v[i]))
      else Throws
    case Float64s(v) =>
      var ints: seq<I32> := seq<I32>(|v|, i requires 0 <= i < |v| => conv.toI32(v[i]));
      Value(ints)
    case Strings(_) => Throws
  }

  /** `get_int64_column`. */
  function GetInt64Column(conv: Conversions, data: ColumnData): Answer<seq<I64>>
  {
    match data
    case Int64s(v) => Value(v)
    case Int32s(v) => Value(seq(|v|, i requires 0 <= i < |v| => v[i]))
    case Float64s(v) =>
      var bigs: seq<I64> := seq<I64>(|v|, i requires 0 <= i < |v| => conv.toI64(v[i]));
      Value(bigs)
    case Strings(_) => Throws
  }

  /** `get_float64_column`. */
  function GetFloat64Column(conv: Conversions, data: ColumnData): Answer<seq<F64>>
  {
    match data
    case Float64s(v) => Value(v)
    case Int32s(v) => Value(seq(|v|, i requires 0 <= i < |v| => conv.ofI32(v[i])))
    case Int64s(v) => Value(seq(|v|, i requires 0 <= i < |v| => conv.ofI64(v[i])))
    case Strings(_) => Throws
  }

  // ---------------------------------------------------------------------------
  // The two paths agree
  // ---------------------------------------------------------------------------

  /** The row path's value of row `i` in column `c`. */
  function ValueAt(conv: Conversions, t: SqlType, rows: seq<Row>, c: nat, i: nat): CellValue
    requires i < |rows|
  {
    RowValue(conv, t, CellAt(rows[i], c))
  }

  function Column(conv: Conversions, t: SqlType, rows: seq<Row>, c: nat): ColumnData {
    ColumnUpTo(conv, t, rows, c, |rows|)
  }

  predicate IsInteger(t: SqlType) {
    t.SmallInt? || t.Int? || t.Oid? || t.BigInt?
  }

  predicate IsNumber(t: SqlType) {
    IsInteger(t) || t.Float? || t.Double? || t.NumericType?
  }

  /**
    For every number column, `get_int32_column` fails if and only if `get_int32` throws on some
    row; otherwise it holds the rows' values, with 0 at nulls.
   */
  lemma Int32Agrees(conv: Conversions, t: SqlType, rows: seq<Row>, c: nat)
    requires conv.Lawful() && IsNumber(t)
    ensures GetInt32Column(conv, Column(conv, t, rows, c)).Throws? <==>
            exists i :: 0 <= i < |rows| && GetInt32(conv, ValueAt(conv, t, rows, c, i)).Throws?
    ensures var column := GetInt32Column(conv, Column(conv, t, rows, c));
            column.Value? ==>
              |column.value| == |rows| &&
              forall i :: 0 <= i < |rows| ==>
                GetInt32(conv, ValueAt(conv, t, rows, c, i)).Value? &&
                column.value[i] == Or(GetInt32(conv, ValueAt(conv, t, rows, c, i)).value, 0)
  {
    if t.BigInt? {
      var v := Column(conv, t, rows, c).bigs;
      assert forall i :: 0 <= i < |rows| ==>
        (FitsI32(v[i]) <==> GetInt32(conv, ValueAt(conv, t, rows, c, i)).Value?);
    }
  }

  /** For every number column but REAL, `get_int64_column` holds the rows' values, 0 at nulls. */
  lemma Int64Agrees(conv: Conversions, t: SqlType, rows: seq<Row>, c: nat)
    requires conv.Lawful() && IsNumber(t) && !t.Float?
    ensures var column := GetInt64Column(conv, Column(conv, t, rows, c));
            column.Value? && |column.value| == |rows| &&
            forall i :: 0 <= i < |rows| ==>
              column.value[i] == Or(GetInt64(conv, ValueAt(conv, t, rows, c, i)), 0)
  {
    assert t.NumericType? ==> forall i :: 0 <= i < |rows| ==>
      conv.toI64(FloatCell(conv, t, CellAt(rows[i], c))) == Or(GetInt64(conv, ValueAt(conv, t, rows, c, i)), 0);
  }

  /**
    On a REAL column the two paths differ: the row path has no integer in any row, not even where
    there is a value, while the column holds every value's conversion.
   */
  lemma Int64OfRealDiffers(conv: Conversions, rows: seq<Row>, c: nat)
    requires conv.Lawful()
    ensures var column := GetInt64Column(conv, Column(conv, Float, rows, c));
            && column.Value? && |column.value| == |rows|
            && forall i :: 0 <= i < |rows| ==>
                 && GetInt64(conv, ValueAt(conv, Float, rows, c, i)) == None
                 && column.value[i] == conv.toI64(Or(GetFloat64(conv, ValueAt(conv, Float, rows, c, i)), conv.zero))
  {
  }

  /** For every number column, `get_float64_column` holds the rows' values, zero at nulls. */
  lemma Float64Agrees(conv: Conversions, t: SqlType, rows: seq<Row>, c: nat)
    requires conv.Lawful() && IsNumber(t)
    ensures var column := GetFloat64Column(conv, Column(conv, t, rows, c));
            column.Value? && |column.value| == |rows| &&
            forall i :: 0 <= i < |rows| ==>
              column.value[i] == Or(GetFloat64(conv, ValueAt(conv, t, rows, c, i)), conv.zero)
  {
  }

  /** A BOOLEAN column holds ones where the row path has no number: they agree exactly on false. */
  lemma BoolAgreesIff(conv: Conversions, rows: seq<Row>, c: nat, i: nat)
    requires conv.Lawful() && i < |rows|
    ensures var cell := CellAt(rows[i], c);
            var column := GetInt32Column(conv, Column(conv, Bool, rows, c));
            && column.Value? && |column.value| == |rows|
            && GetInt32(conv, ValueAt(conv, Bool, rows, c, i)) == Value(None)
            && (column.value[i] == 0 <==> cell.isNull || !Or(cell.b, false))
  {
  }

  /** A non-null cell that the row path nevertheless reports as null, because it cannot be decoded. */
  predicate Undecodable(t: SqlType, cell: Cell)
  {
    && !cell.isNull
    && (match t
        case NumericType => cell.numeric.None?
        case Date => cell.date.None?
        case Time => cell.time.None?
        case Timestamp => cell.timestamp.None?
        case TimestampTz => cell.timestamp.None?
        case _ => false)
  }

  /** `get_nulls` agrees with `is_null` in a row if and only if the cell can be decoded. */
  lemma NullsAgreeIff(conv: Conversions, t: SqlType, rows: seq<Row>, c: nat, i: nat)
    requires i < |rows|
    ensures NullsUpTo(rows, c, |rows|)[i] == IsNull(ValueAt(conv, t, rows, c, i)) <==>
            !Undecodable(t, CellAt(rows[i], c))
  {
  }

  /** Shifting a date to Unix milliseconds and back gives its day: nothing is rounded on the way. */
  lemma DaysRoundTrip(conv: Conversions, days: I32)
    requires conv.RoundsExactly()
    ensures MsToDays(conv, DaysToMs(conv, days)) == days
  {
    var d: int := days;
    DayIsExact(d);
    RoundsInteger(conv, 86_400_000 * d);
    RoundsInteger(conv, 86_400_000 * d + 946_684_800_000);
    RoundsInteger(conv, d);
    assert (86_400_000 * d) as real / DAY_MS == d as real;
    assert -(d as real) == (-d) as real;
  }

  /**
    On text and date columns the strings of both paths agree, "" at nulls and undecodable cells.
    A TIME column reads the raw text of the cell instead: there they agree if and only if the
    time prints as that text.
   */
  lemma StringsAgreeIff(conv: Conversions, t: SqlType, rows: seq<Row>, c: nat, i: nat)
    requires conv.RoundsExactly() && i < |rows| && (t.Text? || t.Date? || t.Time?)
    ensures var cell, column := CellAt(rows[i], c), Column(conv, t, rows, c);
            && column.Strings? && |column.strings| == |rows|
            && (column.strings[i] == Or(GetString(conv, ValueAt(conv, t, rows, c, i)), "") <==>
                t.Text? || t.Date? || cell.isNull || Or(cell.time, "") == Or(cell.text, ""))
  {
    var cell := CellAt(rows[i], c);
    if t.Date? && cell.date.Some? { DaysRoundTrip(conv, cell.date.value); }
  }

  // ---------------------------------------------------------------------------
  // Casts
  // ---------------------------------------------------------------------------

  /** What `as` gives between `min` and `max`: the fraction is cut off towards zero. */
  predicate IsCast(x: real, n: int, min: int, max: int)
  {
    if x >= max as real then n == max
    else if x <= min as real then n == min
    else if x >= 0.0 then n as real <= x < n as real + 1.0
    else n as real - 1.0 < x <= n as real
  }

  lemma CastsTruncate(x: real)
    ensures IsCast(x, AsI32(x), -2_147_483_648, 2_147_483_647)
    ensures IsCast(x, AsI64(x), -9_223_372_036_854_775_808, 9_223_372_036_854_775_807)
  {
    assert x.Floor as real <= x < x.Floor as real + 1.0;
    assert (-x).Floor as real <= -x < (-x).Floor as real + 1.0;
    assert (-(-x).Floor) as real == -((-x).Floor as real);
  }

  // ---------------------------------------------------------------------------
  // Timestamps
  // ---------------------------------------------------------------------------

  /** The microseconds of this day fit into 64 bits. */
  predicate HasTimestamp(days: I32) {
    -0x8000_0000_0000_0000 <= 86_400_000_000 * days < 0x8000_0000_0000_0000
  }

  /** Midnight, as a timestamp, is extracted as the same Unix time as its date; day 0 is 2000-01-01. */
  lemma MidnightIsDate(conv: Conversions, days: I32)
    requires conv.RoundsExactly() && HasTimestamp(days)
    ensures MicrosToMs(conv, 86_400_000_000 * days) == DaysToMs(conv, days) == 86_400_000.0 * days as real + 946_684_800_000.0
    ensures MicrosToMs(conv, 0) == DaysToMs(conv, 0) == 946_684_800_000.0
  {
    MidnightMs(conv, days);
    MidnightMs(conv, 0);
  }

  lemma MidnightMs(conv: Conversions, days: I32)
    requires conv.RoundsExactly() && HasTimestamp(days)
    ensures MicrosToMs(conv, 86_400_000_000 * days) == DaysToMs(conv, days) == 86_400_000.0 * days as real + EPOCH_MS
  {
    DayIsExact(days);
    Multiple(86_400_000_000 * days, 84_375_000 * days);
    RoundsInteger(conv, 86_400_000_000 * days);
    RoundsInteger(conv, 86_400_000 * days);
    RoundsInteger(conv, 86_400_000 * days + 946_684_800_000);
  }

  lemma RoundsInteger(conv: Conversions, n: int)
    requires conv.RoundsExactly() && IsExact(n)
    ensures conv.round(n as real) == n as real
  {
  }

  lemma Multiple(n: int, k: int)
    requires n == 1024 * k && -0x8000_0000_0000_0000 <= n <= 0x8000_0000_0000_0000
    ensures IsExact(n)
  {
  }

  /** The whole numbers that the shift of a date goes through. */
  lemma DayIsExact(d: int)
    requires -0x8000_0000 <= d < 0x8000_0000
    ensures IsExact(86_400_000 * d) && IsExact(86_400_000 * d + 946_684_800_000)
    ensures (86_400_000 * d) as real == d as real * DAY_MS == 86_400_000.0 * d as real
    ensures (86_400_000 * d) as real + EPOCH_MS == (86_400_000 * d + 946_684_800_000) as real
  {
    Multiple(86_400_000 * d, 84_375 * d);
    Multiple(86_400_000 * d + 946_684_800_000, 84_375 * d + 924_496_875);
  }

  /**
    A timestamp on an eighth of a millisecond is extracted exactly, and shifting it back gives its
    microsecond: nothing is rounded on the way.
   */
  lemma MicrosRoundTrip(conv: Conversions, micros: I64)
    requires RoundsToNearest(conv) && Significand(micros) && micros % 125 == 0
    ensures MicrosToMs(conv, micros) == micros as real / 1000.0 + 946_684_800_000.0
    ensures MsToMicros(conv, MicrosToMs(conv, micros)) == micros
  {
    var n := micros / 125;
    EighthsOf(micros, n);
    RoundsInteger(conv, micros);
    RoundsEighth(conv, n);
    RoundsEighth(conv, n + 7_573_478_400_000);
    ExactThrough(conv, micros, n);
  }

  lemma ExactThrough(conv: Conversions, micros: I64, n: int)
    requires Significand(micros) && micros == 125 * n
    requires conv.round(micros as real) == micros as real
    requires conv.round(Eighths(n)) == Eighths(n)
    requires conv.round(Eighths(n + 7_573_478_400_000)) == Eighths(n + 7_573_478_400_000)
    ensures MicrosToMs(conv, micros) == micros as real / 1000.0 + EPOCH_MS
    ensures MsToMicros(conv, MicrosToMs(conv, micros)) == micros
  {
    EighthsOf(micros, n);
    Truncated(micros, micros as real);
  }

  lemma RoundsEighth(conv: Conversions, n: int)
    requires RoundsToNearest(conv) && Significand(n)
    ensures conv.round(Eighths(n)) == Eighths(n)
  {
  }

  lemma EighthsOf(m: int, n: int)
    requires m == 125 * n && Significand(m)
    ensures Significand(n) && Significand(n + 7_573_478_400_000)
    ensures m as real / 1000.0 == Eighths(n) && Eighths(n) * 1000.0 == m as real
    ensures Eighths(n) + EPOCH_MS == Eighths(n + 7_573_478_400_000)
    ensures Eighths(n + 7_573_478_400_000) - EPOCH_MS == Eighths(n)
  {
    assert m as real == 125.0 * n as real;
  }

  /** Cutting off the fraction gives the integer, or the one before it on the way from zero. */
  lemma Truncated(m: int, x: real)
    requires -0x40_0000_0000_0000 <= m <= 0x40_0000_0000_0000 && Size(x - m as real) < 1.0
    ensures x == m as real ==> AsI64(x) == m
    ensures m != 0 ==> AsI64(x) == m || AsI64(x) == (if m > 0 then m - 1 else m + 1)
  {
    assert -(m as real) == (-m) as real;
  }

  /**
    Within 35 years of 2000 every timestamp comes back as its own microsecond or as the next one
    towards 2000: the fraction of a millisecond is rounded, and then cut off.
   */
  lemma MicrosWithinOne(conv: Conversions, micros: I64)
    requires RoundsToNearest(conv) && -0x4_0000_0000_0000 <= micros <= 0x4_0000_0000_0000
    ensures var back := MsToMicros(conv, MicrosToMs(conv, micros));
            back == micros || back == (if micros > 0 then micros - 1 else micros + 1)
  {
    if micros % 125 == 0 {
      MicrosRoundTrip(conv, micros);
    } else {
      RoundsInteger(conv, micros);
      ShiftRounds(conv, micros as real);
      NearThrough(conv, micros, conv.round(micros as real / 1000.0), MicrosToMs(conv, micros));
    }
  }

  lemma ShiftRounds(conv: Conversions, x: real)
    requires RoundsToNearest(conv)
    ensures var part := conv.round(x / 1000.0);
            var ms := conv.round(part + EPOCH_MS);
            var shifted := conv.round(ms - EPOCH_MS);
            && Near(x / 1000.0, part) && Near(part + EPOCH_MS, ms) && Near(ms - EPOCH_MS, shifted)
            && Near(shifted * 1000.0, conv.round(shifted * 1000.0))
  {
  }

  lemma NearThrough(conv: Conversions, micros: I64, part: real, ms: real)
    requires -0x4_0000_0000_0000 <= micros <= 0x4_0000_0000_0000 && micros != 0
    requires Near(micros as real / 1000.0, part) && Near(part + EPOCH_MS, ms)
    requires Near(ms - EPOCH_MS, conv.round(ms - EPOCH_MS))
    requires Near(conv.round(ms - EPOCH_MS) * 1000.0, conv.round(conv.round(ms - EPOCH_MS) * 1000.0))
    ensures MsToMicros(conv, ms) == micros || MsToMicros(conv, ms) == (if micros > 0 then micros - 1 else micros + 1)
  {
    var shifted := conv.round(ms - EPOCH_MS);
    ErrorsAddUp(micros as real, part, ms, shifted, conv.round(shifted * 1000.0));
    Truncated(micros, conv.round(shifted * 1000.0));
  }

  lemma RoundsNear(conv: Conversions, x: real)
    requires RoundsToNearest(conv)
    ensures Near(x, conv.round(x))
  {
  }

  lemma ErrorsAddUp(x: real, part: real, ms: real, shifted: real, out: real)
    requires Size(x) <= 1_125_899_906_842_624.0
    requires Near(x / 1000.0, part) && Near(part + EPOCH_MS, ms) && Near(ms - EPOCH_MS, shifted)
    requires Near(shifted * 1000.0, out)
    ensures Size(out - x) < 1.0
  {
    assert Size(part - x / 1000.0) <= 0.000_126;
    assert Size(ms - (part + EPOCH_MS)) <= 0.000_24;
    assert Size(shifted - (ms - EPOCH_MS)) <= 0.000_126;
    assert Size(shifted * 1000.0 - x) <= 0.492;
    assert Size(out - shifted * 1000.0) <= 0.126;
  }

  /** The strings of a timestamp column agree on every eighth of a millisecond. */
  lemma TimestampStringsAgree(conv: Conversions, t: SqlType, rows: seq<Row>, c: nat, i: nat)
    requires RoundsToNearest(conv) && i < |rows| && (t.Timestamp? || t.TimestampTz?)
    requires var stamp := CellAt(rows[i], c).timestamp;
             stamp.Some? ==> Significand(stamp.value) && stamp.value % 125 == 0
    ensures var column := Column(conv, t, rows, c);
            && column.Strings? && |column.strings| == |rows|
            && column.strings[i] == Or(GetString(conv, ValueAt(conv, t, rows, c, i)), "")
  {
    var stamp := CellAt(rows[i], c).timestamp;
    if stamp.Some? {
      MicrosRoundTrip(conv, stamp.value);
      TimestampStrings(conv, t, rows, c, i, stamp.value);
    }
  }

  /** The strings agree where the microsecond comes back. */
  lemma TimestampStrings(conv: Conversions, t: SqlType, rows: seq<Row>, c: nat, i: nat, micros: I64)
    requires i < |rows| && (t.Timestamp? || t.TimestampTz?) && CellAt(rows[i], c).timestamp == Some(micros)
    requires MsToMicros(conv, MicrosToMs(conv, micros)) == micros
    ensures Column(conv, t, rows, c).strings[i] == Or(GetString(conv, ValueAt(conv, t, rows, c, i)), "")
  {
  }

  /** Within 35 years of 2000 the row path's string is that of the column's microsecond, or of the next one towards 2000. */
  lemma TimestampStringsNear(conv: Conversions, t: SqlType, rows: seq<Row>, c: nat, i: nat, micros: I64)
    requires RoundsToNearest(conv) && i < |rows| && (t.Timestamp? || t.TimestampTz?)
    requires !CellAt(rows[i], c).isNull && CellAt(rows[i], c).timestamp == Some(micros)
    requires -0x4_0000_0000_0000 <= micros <= 0x4_0000_0000_0000
    ensures Column(conv, t, rows, c).strings[i] == conv.showTimestamp(micros)
    ensures var shown := GetString(conv, ValueAt(conv, t, rows, c, i));
            || shown == Some(conv.showTimestamp(micros))
            || shown == Some(conv.showTimestamp(if micros > 0 then micros - 1 else micros + 1))
  {
    MicrosWithinOne(conv, micros);
  }

  /** One microsecond after 2000-01-01 the row path has lost it, and the column has not. */
  lemma MicrosecondIsLost(conv: Conversions)
    requires RoundsToNearest(conv)
    ensures var rows := [[BLANK.(timestamp := Some(1))]];
            && GetString(conv, ValueAt(conv, Timestamp, rows, 0, 0)) == Some(conv.showTimestamp(0))
            && Column(conv, Timestamp, rows, 0) == Strings([conv.showTimestamp(1)])
  {
    var rows := [[BLANK.(timestamp := Some(1))]];
    assert Column(conv, Timestamp, rows, 0).strings == [conv.showTimestamp(1)];
    OneMicrosecond(conv);
    EightSteps(conv);
  }

  /** Rounded to a step of the grid, a thousandth becomes eight steps. */
  lemma OneMicrosecond(conv: Conversions)
    requires RoundsToNearest(conv)
    ensures MicrosToMs(conv, 1) == EPOCH_MS + Steps(8)
  {
    assert IsExact(1) && conv.round(1.0) == 1.0 && 1.0 / 1000.0 == 0.001;
    var ms := conv.round(0.001);
    assert Size(ms - 0.001) <= 0.000_000_1;
    var n := 7_755_241_881_600_008;
    assert Steps(n) == EPOCH_MS + Steps(8);
    assert Nearest(n, ms + EPOCH_MS);
  }

  lemma EightSteps(conv: Conversions)
    requires RoundsToNearest(conv)
    ensures MsToMicros(conv, EPOCH_MS + Steps(8)) == 0
  {
    assert Significand(8) && Significand(8000);
    assert conv.round(Steps(8)) == Steps(8) && EPOCH_MS + Steps(8) - EPOCH_MS == Steps(8);
    assert Steps(8) * 1000.0 == Steps(8000);
    assert conv.round(Steps(8000)) == Steps(8000);
  }

  // ---------------------------------------------------------------------------
  // Booleans, bytes and columns that are not numbers
  // ---------------------------------------------------------------------------

  /** On boolean and integer columns `get_bool` is true exactly where the column is not zero. */
  lemma BoolsAgree(conv: Conversions, t: SqlType, rows: seq<Row>, c: nat, i: nat)
    requires i < |rows| && (t.Bool? || IsInteger(t))
    ensures var column := GetInt64Column(conv, Column(conv, t, rows, c));
            && column.Value? && |column.value| == |rows|
            && (GetBool(ValueAt(conv, t, rows, c, i)) == Some(true) <==> column.value[i] != 0)
            && (GetBool(ValueAt(conv, t, rows, c, i)) == None <==> CellAt(rows[i], c).isNull)
  {
  }

  /** A byte string goes through the row path unchanged, and so does text. */
  lemma BytesAreKept(conv: Conversions, utf8: string -> seq<int>, rows: seq<Row>, c: nat, i: nat)
    requires i < |rows| && !CellAt(rows[i], c).isNull
    ensures GetBytes(utf8, ValueAt(conv, ByteA, rows, c, i)) == Some(Or(CellAt(rows[i], c).bytes, []))
    ensures GetBytes(utf8, ValueAt(conv, Text, rows, c, i)) == Some(utf8(Column(conv, Text, rows, c).strings[i]))
  {
  }

  /** A column that a row does not have is null in both paths. */
  lemma MissingIsNull(conv: Conversions, t: SqlType, rows: seq<Row>, c: nat, i: nat)
    requires i < |rows| && c >= |rows[i]|
    ensures NullsUpTo(rows, c, |rows|)[i] && IsNull(ValueAt(conv, t, rows, c, i))
  {
  }

  /** The number columns throw if and only if the column is neither boolean nor a number, or a BIGINT does not fit. */
  lemma NumberColumnsThrowIff(conv: Conversions, t: SqlType, rows: seq<Row>, c: nat)
    ensures GetInt64Column(conv, Column(conv, t, rows, c)).Throws? <==> !(t.Bool? || IsNumber(t))
    ensures GetFloat64Column(conv, Column(conv, t, rows, c)).Throws? <==> !(t.Bool? || IsNumber(t))
    ensures GetInt32Column(conv, Column(conv, t, rows, c)).Throws? <==>
            !(t.Bool? || IsNumber(t)) || (t.BigInt? && exists i :: 0 <= i < |rows| && !FitsI32(BigCell(CellAt(rows[i], c))))
  {
    if t.BigInt? {
      var v := Column(conv, t, rows, c).bigs;
      assert forall i :: 0 <= i < |rows| ==> v[i] == BigCell(CellAt(rows[i], c));
    }
  }

  /** Conversions of this kind exist. */
  lemma SomeConversionsAreLawful() returns (conv: Conversions)
    ensures conv.Lawful() && RoundsToNearest(conv)
  {
    conv := Conversions(
      F32(0), F64(0), (x: F32) => F64(x.bits), (i: I32) => F64(if i >= 0 then i else 0),
      (i: I64) => F64(if i >= 0 then i else 0), (n: Numeric) => F64(0),
      (x: F32) => if x.bits < 0x8000_0000 then x.bits else 0,
      (x: F64) => if x.bits < 0x8000_0000 then x.bits else 0,
      (x: F64) => if x.bits < 0x8000_0000 then x.bits else 0, OnGrid, (d: I32) => "", (t: I64) => "");
    forall n: int | IsExact(n) ensures OnGrid(n as real) == n as real { OnGridExact(n * 8192); }
    forall n: int ensures OnGrid(Eighths(n)) == Eighths(n) { OnGridExact(n * 1024); }
    forall n: int ensures OnGrid(Steps(n)) == Steps(n) { OnGridExact(n); }
    forall n: int, x: real | Nearest(n, x) ensures OnGrid(x) == Steps(n) { OnGridNearest(n, x); }
    forall x: real ensures Near(x, OnGrid(x)) { OnGridNear(x); }
  }

  /** A rounding that only rounds where the step is 1/8192. */
  function OnGrid(x: real): real {
    if 549_755_813_888.0 <= x < 1_099_511_627_776.0 then Steps((x * 8192.0 + 0.5).Floor) else x
  }

  lemma OnGridExact(n: int)
    ensures OnGrid(Steps(n)) == Steps(n)
  {
    assert Steps(n) * 8192.0 == n as real;
    assert (n as real + 0.5).Floor == n;
  }

  lemma OnGridNearest(n: int, x: real)
    requires Nearest(n, x)
    ensures OnGrid(x) == Steps(n)
  {
    assert Size(x * 8192.0 - n as real) < 0.5;
    if 549_755_813_888.0 <= x < 1_099_511_627_776.0 {
      assert (x * 8192.0 + 0.5).Floor == n;
    }
  }

  lemma OnGridNear(x: real)
    ensures Near(x, OnGrid(x))
  {
    if 549_755_813_888.0 <= x < 1_099_511_627_776.0 {
      var n := (x * 8192.0 + 0.5).Floor;
      assert n as real <= x * 8192.0 + 0.5 < n as real + 1.0;
      assert Size(Steps(n) - x) <= 0.5 / 8192.0;
      assert x / 9_007_199_254_740_992.0 >= 0.5 / 8192.0;
    }
  }

  // ---------------------------------------------------------------------------
  // Where the two paths differ
  // ---------------------------------------------------------------------------

  /** A cell with a value, of which no accessor has been asked yet. */
  const BLANK := ABSENT.(isNull := false)

  /** A boolean that is true: 1 in the column, null in the row. */
  lemma TrueDiffers(conv: Conversions)
    ensures var rows := [[BLANK.(b := Some(true))]];
            && GetInt32Column(conv, Column(conv, Bool, rows, 0)) == Value([1])
            && GetInt32(conv, ValueAt(conv, Bool, rows, 0, 0)) == Value(None)
  {
    var rows := [[BLANK.(b := Some(true))]];
    assert Column(conv, Bool, rows, 0).ints == [1];
  }

  /** A numeric that cannot be decoded: null in the row, not null in the column. */
  lemma UndecodableDiffers(conv: Conversions)
    ensures var rows := [[BLANK]];
            && IsNull(ValueAt(conv, NumericType, rows, 0, 0))
            && NullsUpTo(rows, 0, 1) == [false]
  {
  }

  /** A time whose raw text is not what it prints as. */
  lemma TimeDiffers(conv: Conversions, shown: string, raw: string)
    requires shown != raw
    ensures var rows := [[BLANK.(time := Some(shown), text := Some(raw))]];
            && GetString(conv, ValueAt(conv, Time, rows, 0, 0)) == Some(shown)
            && Column(conv, Time, rows, 0) == Strings([raw])
  {
    var rows := [[BLANK.(time := Some(shown), text := Some(raw))]];
    assert Column(conv, Time, rows, 0).strings == [raw];
  }

  /** A REAL value that converts to an integer: the row path has none. */
  lemma RealDiffers(conv: Conversions, f: F32)
    ensures var rows := [[BLANK.(f32 := Some(f))]];
            && GetInt64(conv, ValueAt(conv, Float, rows, 0, 0)) == None
            && GetInt64Column(conv, Column(conv, Float, rows, 0)) == Value([conv.toI64(conv.widen(f))])
  {
    var rows := [[BLANK.(f32 := Some(f))]];
    assert Column(conv, Float, rows, 0).floats == [conv.widen(f)];
    assert GetInt64Column(conv, Column(conv, Float, rows, 0)).value == [conv.toI64(conv.widen(f))];
  }
}
