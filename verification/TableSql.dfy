/**
  `#[derive(Table)]` (table_derive.rs): the CREATE TABLE statement generated for a struct, and a
  reader that undoes it.
 */
module TableSql {
  import opened Common

  // ---------------------------------------------------------------------------
  // Rust types, as far as the macro looks at them
  // ---------------------------------------------------------------------------

  datatype RustType = PathType(hasQself: bool, segments: seq<Segment>) | OtherType

  datatype Segment = Segment(ident: string, args: PathArgs)

  datatype PathArgs = NoArgs | AngleBracketed(args: seq<GenericArg>) | Parenthesized

  datatype GenericArg = TypeArg(ty: RustType) | OtherArg

  /** The last segment of a plain path. */
  function LastSegment(ty: RustType): Option<Segment>
  {
    match ty
    case PathType(false, segments) => if segments == [] then None else Some(segments[|segments| - 1])
    case _ => None
  }

  /** The first generic argument of the last segment, if it is a type. */
  function FirstTypeArg(ty: RustType): Option<RustType>
  {
    match LastSegment(ty)
    case Some(Segment(_, AngleBracketed(args))) =>
      if args != [] && args[0].TypeArg? then Some(args[0].ty) else None
    case _ => None
  }

  /** `unwrap_option`: the inner type, and whether `ty` was an `Option`. */
  function UnwrapOption(ty: RustType): (RustType, bool)
  {
    var last := LastSegment(ty);
    if last.Some? && last.value.ident == "Option" && FirstTypeArg(ty).Some? then (FirstTypeArg(ty).value, true)
    else (ty, false)
  }

  predicate IsIdent(ty: RustType, name: string) {
    ty == PathType(false, [Segment(name, NoArgs)])
  }

  /** `is_vec_u8`. */
  predicate IsVecU8(ty: RustType)
  {
    var last := LastSegment(ty);
    && last.Some? && last.value.ident == "Vec"
    && FirstTypeArg(ty).Some? && IsIdent(FirstTypeArg(ty).value, "u8")
  }

  /** `rust_type_to_sql`; `None` is its error. */
  function RustTypeToSql(ty: RustType): Option<string>
  {
    var last := LastSegment(ty);
    if last.None? then None
    else
      match last.value.ident
      case "i16" => Some("SMALLINT")
      case "i32" => Some("INTEGER")
      case "i64" => Some("BIGINT")
      case "f32" => Some("REAL")
      case "f64" => Some("DOUBLE PRECISION")
      case "bool" => Some("BOOLEAN")
      case "String" => Some("TEXT")
      case "Vec" => if IsVecU8(ty) then Some("BYTES") else None
      case "NaiveDate" => Some("DATE")
      case "NaiveDateTime" => Some("TIMESTAMP")
      case "NaiveTime" => Some("TIME")
      case "DateTime" => Some("TIMESTAMPTZ")
      case "Numeric" => Some("NUMERIC")
      case _ => None
  }

  // ---------------------------------------------------------------------------
  // Printing
  // ---------------------------------------------------------------------------

  /** A column as the statement declares it. */
  datatype Column = Column(name: string, sqlType: string, nullable: bool)

  /** Every quote doubled. */
  function Doubled(name: string): string
  {
    if name == "" then ""
    else (if name[0] == '"' then "\"\"" else [name[0]]) + Doubled(name[1..])
  }

  /** `quote_ident`. */
  function QuoteIdent(name: string): string {
    "\"" + Doubled(name) + "\""
  }

  const NOT_NULL := " NOT NULL"

  /** The text `column_def` builds. */
  function PrintColumn(c: Column): string {
    QuoteIdent(c.name) + " " + c.sqlType + (if c.nullable then "" else NOT_NULL)
  }

  /** The columns joined with commas. */
  function PrintColumns(columns: seq<Column>): string
  {
    if columns == [] then ""
    else if |columns| == 1 then PrintColumn(columns[0])
    else PrintColumn(columns[0]) + ", " + PrintColumns(columns[1..])
  }

  const CREATE := "CREATE TABLE IF NOT EXISTS "

  function CreateSql(table: string, columns: seq<Column>): string {
    CREATE + QuoteIdent(table) + " (" + PrintColumns(columns) + ")"
  }

  // ---------------------------------------------------------------------------
  // The macro
  // ---------------------------------------------------------------------------

  /** One item of a `#[hyperdb(..)]` attribute, such as `rename = "x"`. */
  datatype Meta = Meta(path: string, value: MetaValue)

  /** `IntLit` is an integer literal that fits `usize`. */
  datatype MetaValue = Bare | StrLit(text: string) | IntLit(n: nat) | OtherValue

  /** What `parse_struct_opts` takes; a value after an item it skips is a syntax error. */
  predicate IsStructMeta(m: Meta)
  {
    if m.path == "table" then m.value.StrLit?
    else m.path in ["register", "primary_key", "rename", "index"] && m.value.Bare?
  }

  /** What `parse_field_opts` takes. */
  predicate IsFieldMeta(m: Meta)
  {
    if m.path == "rename" then m.value.StrLit?
    else if m.path == "index" then m.value.IntLit?
    else m.path == "primary_key" && m.value.Bare?
  }

  /** The last value given for this path. */
  function LastValue(metas: seq<Meta>, path: string): Option<MetaValue>
  {
    if metas == [] then None
    else
      var last := metas[|metas| - 1];
      if last.path == path then Some(last.value) else LastValue(metas[..|metas| - 1], path)
  }

  function LastText(metas: seq<Meta>, path: string): Option<string>
  {
    var v := LastValue(metas, path);
    if v.Some? && v.value.StrLit? then Some(v.value.text) else None
  }

  predicate AllStructMetas(metas: seq<Meta>) {
    forall i :: 0 <= i < |metas| ==> IsStructMeta(metas[i])
  }

  predicate AllFieldMetas(metas: seq<Meta>) {
    forall i :: 0 <= i < |metas| ==> IsFieldMeta(metas[i])
  }

  /** `parse_struct_opts`: an unknown item is an error, and of several table names the last counts. */
  method ParseStructOpts(metas: seq<Meta>) returns (ok: bool, table: Option<string>)
    ensures ok <==> AllStructMetas(metas)
    ensures ok ==> table == LastText(metas, "table")
  {
    table := None;
    for i := 0 to |metas|
      invariant AllStructMetas(metas[..i]) && table == LastText(metas[..i], "table")
    {
      assert metas[..i + 1][..i] == metas[..i];
      var m := metas[i];
      if m.path == "table" {
        if !m.value.StrLit? { return false, None; }
        table := Some(m.value.text);
      } else if m.path !in ["register", "primary_key", "rename", "index"] || !m.value.Bare? {
        return false, None;
      }
    }
    assert metas[..|metas|] == metas;
    return true, table;
  }

  /** `parse_field_opts`. */
  method ParseFieldOpts(metas: seq<Meta>) returns (ok: bool, rename: Option<string>, index: Option<nat>)
    ensures ok <==> AllFieldMetas(metas)
    ensures ok ==> rename == LastText(metas, "rename")
    ensures ok ==> (index.Some? <==> LastValue(metas, "index").Some?)
    ensures ok && index.Some? ==> LastValue(metas, "index") == Some(IntLit(index.value))
  {
    rename, index := None, None;
    for i := 0 to |metas|
      invariant AllFieldMetas(metas[..i]) && rename == LastText(metas[..i], "rename")
      invariant index.Some? <==> LastValue(metas[..i], "index").Some?
      invariant index.Some? ==> LastValue(metas[..i], "index") == Some(IntLit(index.value))
    {
      assert metas[..i + 1][..i] == metas[..i];
      var m := metas[i];
      if m.path == "rename" {
        if !m.value.StrLit? { return false, None, None; }
        rename := Some(m.value.text);
      } else if m.path == "index" {
        if !m.value.IntLit? { return false, None, None; }
        index := Some(m.value.n);
      } else if m.path != "primary_key" || !m.value.Bare? {
        return false, None, None;
      }
    }
    assert metas[..|metas|] == metas;
    return true, rename, index;
  }

  datatype Field = Field(ident: string, metas: seq<Meta>, ty: RustType)

  /** `column_def`, before printing; `None` is its error. */
  function ColumnDef(f: Field): Option<Column>
  {
    if !AllFieldMetas(f.metas) then None
    else
      var (inner, optional) := UnwrapOption(f.ty);
      var sqlType := RustTypeToSql(inner);
      if sqlType.None? then None
      else
        var rename := LastText(f.metas, "rename");
        Some(Column(if rename.Some? then rename.value else f.ident, sqlType.value,
                    optional || LastValue(f.metas, "index").Some?))
  }

  /** All fields, or nothing if one is in error. */
  function ColumnDefs(fields: seq<Field>): Option<seq<Column>>
  {
    if fields == [] then Some([])
    else
      var first, rest := ColumnDef(fields[0]), ColumnDefs(fields[1..]);
      if first.None? || rest.None? then None else Some([first.value] + rest.value)
  }

  /** The case tables, whatever they are; a character may lower to several. */
  datatype Casing = Casing(isUpper: char -> bool, lower: char -> string)
  {
    /** Lowering removes upper case; for a few characters of Unicode it does not. */
    predicate Lowers(c: char) {
      forall i :: 0 <= i < |lower(c)| ==> !isUpper(lower(c)[i])
    }
  }

  /** `to_snake_case` of the characters from position `i` on. */
  function SnakeFrom(casing: Casing, s: string, i: nat): string
    requires i <= |s|
    decreases |s| - i
  {
    if i == |s| then ""
    else
      (if casing.isUpper(s[i]) && i > 0 then "_" else "") + casing.lower(s[i]) + SnakeFrom(casing, s, i + 1)
  }

  method ToSnakeCase(casing: Casing, s: string) returns (out: string)
    ensures out == SnakeFrom(casing, s, 0)
    ensures !casing.isUpper('_') && (forall i :: 0 <= i < |s| ==> casing.Lowers(s[i])) ==>
              forall i :: 0 <= i < |out| ==> !casing.isUpper(out[i])
  {
    out := "";
    for i := 0 to |s|
      invariant SnakeFrom(casing, s, 0) == out + SnakeFrom(casing, s, i)
      invariant !casing.isUpper('_') && (forall k :: 0 <= k < |s| ==> casing.Lowers(s[k])) ==>
                  forall k :: 0 <= k < |out| ==> !casing.isUpper(out[k])
    {
      ghost var before := out;
      if casing.isUpper(s[i]) && i > 0 {
        out := out + "_";
      }
      out := out + casing.lower(s[i]);
      assert out == before + ((if casing.isUpper(s[i]) && i > 0 then "_" else "") + casing.lower(s[i]));
    }
    assert out + "" == out;
  }

  /** What the macro is applied to. */
  datatype Input = Input(name: string, metas: seq<Meta>, shape: Shape)

  datatype Shape = NamedFields(fields: seq<Field>) | OtherStruct | Enum | Union

  /** The table name: the `table` option, else the struct's name in snake case. */
  function TableName(casing: Casing, input: Input): string
  {
    var table := LastText(input.metas, "table");
    if table.Some? then table.value else SnakeFrom(casing, input.name, 0)
  }

  /** `expand`: the generated `CREATE_SQL`, or nothing on an error. */
  function Expand(casing: Casing, input: Input): Option<string>
  {
    if !input.shape.NamedFields? || !AllStructMetas(input.metas) then None
    else
      var columns := ColumnDefs(input.shape.fields);
      if columns.None? then None else Some(CreateSql(TableName(casing, input), columns.value))
  }

  // ---------------------------------------------------------------------------
  // Reading back
  // ---------------------------------------------------------------------------

  datatype Parsed<T> = Parsed(value: T, rest: string) | Malformed

  /** The body of a quoted identifier: a doubled quote is a quote, a single one ends it. */
  function ReadQuotedBody(s: string): (p: Parsed<string>)
    ensures p.Parsed? ==> |p.rest| < |s|
  {
    if s == "" then Malformed
    else if s[0] == '"' then
      if |s| > 1 && s[1] == '"' then
        match ReadQuotedBody(s[2..])
        case Parsed(name, rest) => Parsed("\"" + name, rest)
        case Malformed => Malformed
      else Parsed("", s[1..])
    else
      match ReadQuotedBody(s[1..])
      case Parsed(name, rest) => Parsed([s[0]] + name, rest)
      case Malformed => Malformed
  }

  function ReadQuoted(s: string): Parsed<string>
  {
    if s != "" && s[0] == '"' then ReadQuotedBody(s[1..]) else Malformed
  }

  predicate EndsColumn(c: char) {
    c == ',' || c == ')'
  }

  /** The text before the next comma or closing parenthesis. */
  function ReadText(s: string): (p: Parsed<string>)
    ensures p.Parsed? ==> |p.rest| <= |s|
  {
    if s == "" then Malformed
    else if EndsColumn(s[0]) then Parsed("", s)
    else
      match ReadText(s[1..])
      case Parsed(text, rest) => Parsed([s[0]] + text, rest)
      case Malformed => Malformed
  }

  predicate EndsWith(s: string, suffix: string) {
    |s| >= |suffix| && s[|s| - |suffix|..] == suffix
  }

  function ReadColumn(s: string): (p: Parsed<Column>)
    ensures p.Parsed? ==> |p.rest| < |s|
  {
    match ReadQuoted(s)
    case Malformed => Malformed
    case Parsed(name, rest) =>
      if rest == "" || rest[0] != ' ' then Malformed
      else
        match ReadText(rest[1..])
        case Malformed => Malformed
        case Parsed(text, rest) =>
          if EndsWith(text, NOT_NULL) then Parsed(Column(name, text[..|text| - |NOT_NULL|], false), rest)
          else Parsed(Column(name, text, true), rest)
  }

  /** Columns up to the closing parenthesis. */
  function ReadColumns(s: string): Option<seq<Column>>
    decreases |s|
  {
    match ReadColumn(s)
    case Malformed => None
    case Parsed(c, rest) =>
      if rest == ")" then Some([c])
      else if |rest| > 2 && rest[..2] == ", " then
        var more := ReadColumns(rest[2..]);
        if more.None? then None else Some([c] + more.value)
      else None
  }

  /** A table's name and columns, read from its CREATE TABLE statement. */
  function ReadTable(sql: string): Option<(string, seq<Column>)>
  {
    if |sql| < |CREATE| || sql[..|CREATE|] != CREATE then None
    else
      match ReadQuoted(sql[|CREATE|..])
      case Malformed => None
      case Parsed(table, rest) =>
        if |rest| < 2 || rest[..2] != " (" then None
        else if rest[2..] == ")" then Some((table, []))
        else
          var columns := ReadColumns(rest[2..]);
          if columns.None? then None else Some((table, columns.value))
  }

  // ---------------------------------------------------------------------------
  // Reading undoes printing
  // ---------------------------------------------------------------------------

  /** A type text that neither ends a column nor looks like one that is not null. */
  predicate PlainType(t: string)
  {
    && (forall i :: 0 <= i < |t| ==> !EndsColumn(t[i]))
    && (|t| < |NOT_NULL| || t[|t| - 1] != 'L')
  }

  /** Every type the macro can print is plain. */
  lemma SqlTypesArePlain(ty: RustType)
    ensures RustTypeToSql(ty).Some? ==> PlainType(RustTypeToSql(ty).value)
  {
  }

  lemma {:induction false} DoubledReads(name: string, rest: string)
    requires rest == "" || rest[0] != '"'
    ensures ReadQuotedBody(Doubled(name) + "\"" + rest) == Parsed(name, rest)
    decreases |name|
  {
    var s := Doubled(name) + "\"" + rest;
    if name == "" {
      assert s == "\"" + rest && s[1..] == rest;
    } else {
      DoubledReads(name[1..], rest);
      var tail := Doubled(name[1..]) + "\"" + rest;
      if name[0] == '"' {
        assert s == "\"\"" + tail && s[2..] == tail;
      } else {
        assert s == [name[0]] + tail && s[1..] == tail;
      }
      assert [name[0]] + name[1..] == name;
    }
  }

  /** A quoted identifier reads back, whatever characters it holds. */
  lemma QuotedReads(name: string, rest: string)
    requires rest == "" || rest[0] != '"'
    ensures ReadQuoted(QuoteIdent(name) + rest) == Parsed(name, rest)
  {
    DoubledReads(name, rest);
    var s := QuoteIdent(name) + rest;
    assert s[1..] == Doubled(name) + "\"" + rest;
  }

  lemma {:induction false} TextReads(text: string, rest: string)
    requires forall i :: 0 <= i < |text| ==> !EndsColumn(text[i])
    requires rest != "" && EndsColumn(rest[0])
    ensures ReadText(text + rest) == Parsed(text, rest)
    decreases |text|
  {
    if text == "" {
      assert text + rest == rest;
    } else {
      assert (text + rest)[1..] == text[1..] + rest;
      TextReads(text[1..], rest);
      assert [text[0]] + text[1..] == text;
    }
  }

  function TypeText(c: Column): string {
    c.sqlType + (if c.nullable then "" else NOT_NULL)
  }

  lemma TypeTextReads(c: Column)
    requires PlainType(c.sqlType)
    ensures EndsWith(TypeText(c), NOT_NULL) == !c.nullable
    ensures !c.nullable ==> TypeText(c)[..|TypeText(c)| - |NOT_NULL|] == c.sqlType
    ensures c.nullable ==> TypeText(c) == c.sqlType
    ensures forall i :: 0 <= i < |TypeText(c)| ==> !EndsColumn(TypeText(c)[i])
  {
    var text := TypeText(c);
    if c.nullable {
      assert text == c.sqlType;
      assert NOT_NULL[|NOT_NULL| - 1] == 'L';
      assert |text| >= |NOT_NULL| ==> text[|text| - |NOT_NULL|..][|NOT_NULL| - 1] == text[|text| - 1];
    } else {
      assert text[|text| - |NOT_NULL|..] == NOT_NULL && text[..|text| - |NOT_NULL|] == c.sqlType;
    }
  }

  lemma ColumnReads(c: Column, rest: string)
    requires PlainType(c.sqlType)
    requires rest != "" && EndsColumn(rest[0])
    ensures ReadColumn(PrintColumn(c) + rest) == Parsed(c, rest)
  {
    var text := TypeText(c);
    var tail := " " + text + rest;
    TypeTextReads(c);
    assert PrintColumn(c) + rest == QuoteIdent(c.name) + tail;
    QuotedReads(c.name, tail);
    assert tail[1..] == text + rest;
    TextReads(text, rest);
  }

  lemma OneMoreColumn(s: string, c: Column, more: string, columns: seq<Column>)
    requires ReadColumn(s) == Parsed(c, ", " + more) && more != ""
    requires ReadColumns(more) == Some(columns)
    ensures ReadColumns(s) == Some([c] + columns)
  {
    var rest := ", " + more;
    assert rest[..2] == ", " && rest[2..] == more;
  }

  lemma {:induction false} ColumnsRead(columns: seq<Column>)
    requires columns != []
    requires forall i :: 0 <= i < |columns| ==> PlainType(columns[i].sqlType)
    ensures ReadColumns(PrintColumns(columns) + ")") == Some(columns)
    decreases |columns|
  {
    if |columns| == 1 {
      ColumnReads(columns[0], ")");
      assert [columns[0]] == columns;
    } else {
      var more := PrintColumns(columns[1..]) + ")";
      var rest := ", " + more;
      assert PrintColumns(columns) + ")" == PrintColumn(columns[0]) + rest;
      ColumnReads(columns[0], rest);
      ColumnsRead(columns[1..]);
      OneMoreColumn(PrintColumns(columns) + ")", columns[0], more, columns[1..]);
      assert [columns[0]] + columns[1..] == columns;
    }
  }

  /** The list starts with a quote, so it is not the closing parenthesis of an empty one. */
  lemma ColumnsStartWithQuote(columns: seq<Column>)
    requires columns != []
    ensures PrintColumns(columns) != "" && PrintColumns(columns)[0] == '"'
  {
    assert PrintColumn(columns[0])[0] == '"';
  }

  /**
    Round trip: reading a CREATE TABLE statement back gives the table's name and every column's
    name, type and nullability in order, for all names, also with quotes, commas and parentheses.
   */
  lemma TableReadsBack(table: string, columns: seq<Column>)
    requires forall i :: 0 <= i < |columns| ==> PlainType(columns[i].sqlType)
    ensures ReadTable(CreateSql(table, columns)) == Some((table, columns))
  {
    var sql, body := CreateSql(table, columns), PrintColumns(columns) + ")";
    var rest := " (" + body;
    assert sql[..|CREATE|] == CREATE && sql[|CREATE|..] == QuoteIdent(table) + rest;
    QuotedReads(table, rest);
    assert rest[..2] == " (" && rest[2..] == body;
    if columns == [] {
      assert body == ")";
    } else {
      ColumnsStartWithQuote(columns);
      assert body[0] == '"';
      ColumnsRead(columns);
    }
  }

  /** Different tables have different statements. */
  lemma StatementsAreInjective(t: string, cs: seq<Column>, u: string, ds: seq<Column>)
    requires forall i :: 0 <= i < |cs| ==> PlainType(cs[i].sqlType)
    requires forall i :: 0 <= i < |ds| ==> PlainType(ds[i].sqlType)
    requires CreateSql(t, cs) == CreateSql(u, ds)
    ensures t == u && cs == ds
  {
    TableReadsBack(t, cs);
    TableReadsBack(u, ds);
  }

  // ---------------------------------------------------------------------------
  // All columns
  // ---------------------------------------------------------------------------

  lemma {:induction false} ColumnDefsArePlain(fields: seq<Field>)
    ensures ColumnDefs(fields).Some? <==> forall i :: 0 <= i < |fields| ==> ColumnDef(fields[i]).Some?
    ensures ColumnDefs(fields).Some? ==>
              && |ColumnDefs(fields).value| == |fields|
              && forall i :: 0 <= i < |fields| ==>
                   && ColumnDef(fields[i]) == Some(ColumnDefs(fields).value[i])
                   && PlainType(ColumnDefs(fields).value[i].sqlType)
  {
    if fields != [] {
      ColumnDefsArePlain(fields[1..]);
      var (inner, _) := UnwrapOption(fields[0].ty);
      SqlTypesArePlain(inner);
      assert forall i :: 0 < i < |fields| ==> fields[1..][i - 1] == fields[i];
      if ColumnDefs(fields[1..]).None? {
        var k :| 0 <= k < |fields[1..]| && ColumnDef(fields[1..][k]).None?;
        assert ColumnDef(fields[k + 1]).None?;
      }
    }
  }

  // ---------------------------------------------------------------------------
  // What a column says of its field
  // ---------------------------------------------------------------------------

  /** The supported types by the name that ends their path, and what they become. */
  const SQL_NAMES: map<string, string> := map[
    "i16" := "SMALLINT", "i32" := "INTEGER", "i64" := "BIGINT", "f32" := "REAL", "f64" := "DOUBLE PRECISION",
    "bool" := "BOOLEAN", "String" := "TEXT", "Vec" := "BYTES", "NaiveDate" := "DATE",
    "NaiveDateTime" := "TIMESTAMP", "NaiveTime" := "TIME", "DateTime" := "TIMESTAMPTZ", "Numeric" := "NUMERIC"]

  /** `ty` is a plain path that ends in `name`. */
  predicate EndsIn(ty: RustType, name: string)
  {
    ty.PathType? && !ty.hasQself && ty.segments != [] && ty.segments[|ty.segments| - 1].ident == name
  }

  /** `ty` is `name<arg, ..>`. */
  predicate IsGeneric(ty: RustType, name: string, arg: RustType)
  {
    && EndsIn(ty, name)
    && var args := ty.segments[|ty.segments| - 1].args;
       args.AngleBracketed? && args.args != [] && args.args[0] == TypeArg(arg)
  }

  /** `ty` is a supported type, and `sql` its SQL type; of the vectors only those of bytes are. */
  ghost predicate Stands(ty: RustType, sql: string) {
    exists name ::
      && name in SQL_NAMES && EndsIn(ty, name) && sql == SQL_NAMES[name]
      && (name == "Vec" ==> IsGeneric(ty, "Vec", PathType(false, [Segment("u8", NoArgs)])))
  }

  lemma StandsIff(ty: RustType, sql: string)
    ensures Stands(ty, sql) <==> RustTypeToSql(ty) == Some(sql)
  {
    var last := LastSegment(ty);
    if last.Some? { assert EndsIn(ty, last.value.ident); }
  }

  /** Different supported types have different SQL types. */
  lemma StandsIsInjective(a: RustType, b: RustType, sql: string)
    requires Stands(a, sql) && Stands(b, sql)
    ensures LastSegment(a).value.ident == LastSegment(b).value.ident
  {
  }

  /** The type of the column's values: `T` for `Option<T>`. */
  ghost predicate HoldsValuesOf(f: Field, t: RustType) {
    IsGeneric(f.ty, "Option", t) || (t == f.ty && !IsOptional(f))
  }

  ghost predicate IsOptional(f: Field) {
    exists t :: IsGeneric(f.ty, "Option", t)
  }

  predicate HasMeta(f: Field, path: string) {
    exists i :: 0 <= i < |f.metas| && f.metas[i].path == path
  }

  /** The name the last `rename` gives, or else the field's own. */
  ghost predicate IsNameOf(f: Field, name: string)
  {
    if HasMeta(f, "rename") then
      exists i ::
        && 0 <= i < |f.metas| && f.metas[i] == Meta("rename", StrLit(name))
        && forall j :: i < j < |f.metas| ==> f.metas[j].path != "rename"
    else name == f.ident
  }

  /** `c` is the column the field should have. */
  ghost predicate Describes(c: Column, f: Field)
  {
    && IsNameOf(f, c.name)
    && (c.nullable <==> IsOptional(f) || HasMeta(f, "index"))
    && exists t :: HoldsValuesOf(f, t) && Stands(t, c.sqlType)
  }

  ghost predicate CanDescribe(f: Field) {
    AllFieldMetas(f.metas) && exists t, sql :: HoldsValuesOf(f, t) && Stands(t, sql)
  }

  lemma {:induction false} LastValueIs(metas: seq<Meta>, path: string)
    ensures var v := LastValue(metas, path);
            if v.None? then forall i :: 0 <= i < |metas| ==> metas[i].path != path
            else exists i ::
                   && 0 <= i < |metas| && metas[i] == Meta(path, v.value)
                   && forall j :: i < j < |metas| ==> metas[j].path != path
  {
    if metas != [] {
      var n := |metas| - 1;
      LastValueIs(metas[..n], path);
      assert forall i :: 0 <= i < n ==> metas[..n][i] == metas[i];
      if metas[n].path == path { assert metas[n] == Meta(path, metas[n].value); }
    }
  }

  lemma UnwrapOptionIs(f: Field)
    ensures var (inner, optional) := UnwrapOption(f.ty);
            && (optional <==> IsOptional(f))
            && forall t :: HoldsValuesOf(f, t) <==> t == inner
  {
    var (inner, optional) := UnwrapOption(f.ty);
    if optional {
      assert IsGeneric(f.ty, "Option", inner);
    }
  }

  lemma NameIs(f: Field)
    requires AllFieldMetas(f.metas)
    ensures var rename := LastText(f.metas, "rename");
            IsNameOf(f, if rename.Some? then rename.value else f.ident)
  {
    LastValueIs(f.metas, "rename");
  }

  /** The column of a field is the one that describes it, and there is one exactly when it can be described. */
  lemma ColumnDefDescribes(f: Field)
    ensures ColumnDef(f).Some? <==> CanDescribe(f)
    ensures ColumnDef(f).Some? ==> Describes(ColumnDef(f).value, f)
  {
    UnwrapOptionIs(f);
    var (inner, optional) := UnwrapOption(f.ty);
    forall sql ensures Stands(inner, sql) <==> RustTypeToSql(inner) == Some(sql) { StandsIff(inner, sql); }
    if AllFieldMetas(f.metas) {
      NameIs(f);
      LastValueIs(f.metas, "index");
    }
  }

  /** A field has one description: two columns that both describe it are the same. */
  lemma DescribesOne(c: Column, d: Column, f: Field)
    requires Describes(c, f) && Describes(d, f)
    ensures c == d
  {
    UnwrapOptionIs(f);
    var (inner, _) := UnwrapOption(f.ty);
    StandsIff(inner, c.sqlType);
    StandsIff(inner, d.sqlType);
    if HasMeta(f, "rename") { SameName(f, c.name, d.name); }
  }

  lemma SameName(f: Field, a: string, b: string)
    requires HasMeta(f, "rename") && IsNameOf(f, a) && IsNameOf(f, b)
    ensures a == b
  {
    var i :| 0 <= i < |f.metas| && f.metas[i] == Meta("rename", StrLit(a))
      && forall j :: i < j < |f.metas| ==> f.metas[j].path != "rename";
    var k :| 0 <= k < |f.metas| && f.metas[k] == Meta("rename", StrLit(b))
      && forall j :: k < j < |f.metas| ==> f.metas[j].path != "rename";
    assert i == k;
  }

  /** Making a field optional only drops NOT NULL. */
  lemma OptionalKeepsType(f: Field, g: Field, c: Column, d: Column)
    requires g.ident == f.ident && g.metas == f.metas && IsGeneric(g.ty, "Option", f.ty)
    requires !IsOptional(f) && Describes(c, f) && Describes(d, g)
    ensures d == c.(nullable := true)
  {
    UnwrapOptionIs(f);
    UnwrapOptionIs(g);
    StandsIff(f.ty, c.sqlType);
    StandsIff(f.ty, d.sqlType);
    if HasMeta(f, "rename") { SameName(f, c.name, d.name); }
  }

  // ---------------------------------------------------------------------------
  // The table's name
  // ---------------------------------------------------------------------------

  /** One more character adds its lower case, after an underscore if it is upper case and not the first. */
  lemma {:induction false} SnakeAppend(casing: Casing, s: string, c: char, i: nat)
    requires i <= |s|
    ensures SnakeFrom(casing, s + [c], i) ==
            SnakeFrom(casing, s, i) + (if casing.isUpper(c) && s != "" then "_" else "") + casing.lower(c)
    decreases |s| - i
  {
    var all := s + [c];
    if i == |s| {
      assert SnakeFrom(casing, all, i + 1) == "";
    } else {
      SnakeAppend(casing, s, c, i + 1);
    }
  }

  lemma TableNameIs(casing: Casing, input: Input)
    requires AllStructMetas(input.metas)
    ensures var name := TableName(casing, input);
            if exists i :: 0 <= i < |input.metas| && input.metas[i].path == "table" then
              exists i ::
                && 0 <= i < |input.metas| && input.metas[i] == Meta("table", StrLit(name))
                && forall j :: i < j < |input.metas| ==> input.metas[j].path != "table"
            else name == SnakeFrom(casing, input.name, 0)
  {
    LastValueIs(input.metas, "table");
  }

  // ---------------------------------------------------------------------------
  // The macro, end to end
  // ---------------------------------------------------------------------------

  /**
    The macro succeeds exactly on structs with named fields whose options are all recognized and
    whose fields have supported types, and its statement then reads back as the table and one
    column for each field, in order: the column that describes the field.
   */
  lemma ExpandReadsBack(casing: Casing, input: Input)
    ensures Expand(casing, input).Some? <==>
            && input.shape.NamedFields? && AllStructMetas(input.metas)
            && forall i :: 0 <= i < |input.shape.fields| ==> CanDescribe(input.shape.fields[i])
    ensures Expand(casing, input).Some? ==>
              var fields, read := input.shape.fields, ReadTable(Expand(casing, input).value);
              && read.Some? && read.value.0 == TableName(casing, input)
              && |read.value.1| == |fields|
              && forall i :: 0 <= i < |fields| ==> Describes(read.value.1[i], fields[i])
  {
    if input.shape.NamedFields? {
      var fields := input.shape.fields;
      ColumnDefsArePlain(fields);
      forall i | 0 <= i < |fields|
        ensures ColumnDef(fields[i]).Some? <==> CanDescribe(fields[i])
        ensures ColumnDef(fields[i]).Some? ==> Describes(ColumnDef(fields[i]).value, fields[i])
      {
        ColumnDefDescribes(fields[i]);
      }
      if ColumnDefs(fields).Some? {
        TableReadsBack(TableName(casing, input), ColumnDefs(fields).value);
      }
    }
  }

  /** The case tables on ASCII. */
  const ASCII := Casing((c: char) => 'A' <= c <= 'Z', (c: char) => if 'A' <= c <= 'Z' then [c + 32 as char] else [c])

  function Simple(name: string): RustType {
    PathType(false, [Segment(name, NoArgs)])
  }

  lemma {:induction false} PlainNamesStay(name: string)
    requires forall i :: 0 <= i < |name| ==> name[i] != '"'
    ensures Doubled(name) == name
  {
    if name != "" { PlainNamesStay(name[1..]); }
  }

  /** A struct with an id and an optional nickname, and its statement. */
  lemma UserTable(f: Field, g: Field)
    requires f == Field("id", [], Simple("i64")) && g.ident == "nickname" && g.metas == []
    requires g.ty == PathType(false, [Segment("Option", AngleBracketed([TypeArg(Simple("String"))]))])
    ensures Expand(ASCII, Input("User", [], NamedFields([f, g]))) ==
              Some("CREATE TABLE IF NOT EXISTS " + "\"user\"" + " ("
                   + ("\"id\" BIGINT NOT NULL" + ", " + "\"nickname\" TEXT") + ")")
  {
    var c, d := Column("id", "BIGINT", false), Column("nickname", "TEXT", true);
    UserColumns(f, g);
    UserSnake();
    ExpandIs(ASCII, "User", [f, g], "user", [c, d]);
    CreateTwo("user", c, d);
    UserName();
    UserIdColumn();
    UserNicknameColumn();
  }

  lemma UserName()
    ensures QuoteIdent("user") == "\"user\""
  {
    PlainQuoted("user");
  }

  lemma ExpandIs(casing: Casing, name: string, fields: seq<Field>, table: string, columns: seq<Column>)
    requires ColumnDefs(fields) == Some(columns) && SnakeFrom(casing, name, 0) == table
    ensures Expand(casing, Input(name, [], NamedFields(fields))) == Some(CreateSql(table, columns))
  {
  }

  lemma CreateTwo(table: string, c: Column, d: Column)
    ensures CreateSql(table, [c, d]) ==
              "CREATE TABLE IF NOT EXISTS " + QuoteIdent(table) + " (" + (PrintColumn(c) + ", " + PrintColumn(d)) + ")"
  {
    assert [c, d][1..] == [d] && PrintColumns([d]) == PrintColumn(d);
  }

  lemma PlainQuoted(name: string)
    requires forall i :: 0 <= i < |name| ==> name[i] != '"'
    ensures QuoteIdent(name) == "\"" + name + "\""
  {
    PlainNamesStay(name);
  }

  lemma UserColumns(f: Field, g: Field)
    requires f == Field("id", [], Simple("i64")) && g.ident == "nickname" && g.metas == []
    requires g.ty == PathType(false, [Segment("Option", AngleBracketed([TypeArg(Simple("String"))]))])
    ensures ColumnDefs([f, g]) == Some([Column("id", "BIGINT", false), Column("nickname", "TEXT", true)])
  {
    var c, d := Column("id", "BIGINT", false), Column("nickname", "TEXT", true);
    assert ColumnDef(f) == Some(c) && ColumnDef(g) == Some(d);
    assert ColumnDefs([]) == Some([]) && [g][1..] == [] && [f, g][1..] == [g];
    assert [d] + [] == [d] && [c] + [d] == [c, d];
  }

  lemma UserIdColumn()
    ensures PrintColumn(Column("id", "BIGINT", false)) == "\"id\" BIGINT NOT NULL"
  {
    PlainQuoted("id");
  }

  lemma UserNicknameColumn()
    ensures PrintColumn(Column("nickname", "TEXT", true)) == "\"nickname\" TEXT"
  {
    PlainQuoted("nickname");
    assert "\"" + "nickname" + "\"" == "\"nickname\"";
    assert "\"nickname\"" + " " + "TEXT" + "" == "\"nickname\" TEXT";
  }

  lemma UserSnake()
    ensures SnakeFrom(ASCII, "User", 0) == "user"
  {
    var s := "User";
    assert SnakeFrom(ASCII, s, 3) == "r" && SnakeFrom(ASCII, s, 2) == "er" && SnakeFrom(ASCII, s, 1) == "ser";
  }
}
