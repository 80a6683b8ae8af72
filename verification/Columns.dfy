/**
 One table of a bundle on the wire: rows narrowed to signed cells, cut into
 row-group batches and transposed to columns; then read back by column name,
 widened and transposed again (src/bundle/writer.rs, src/bundle/reader.rs).
 */
module Columns {
  import opened Common

  datatype Float = Finite(x: real) | NotFinite

  /** One field of a row in memory. */
  datatype Value = Int(n: int) | Str(s: string) | Absent | Bool(b: bool) | Num(f: Float)

  /** One cell on the wire; `Null` is a null of any type. */
  datatype Cell = Int32(w: i32) | Int64(x: i64) | Utf8(s: string) | Boolean(b: bool) | Float64(f: Float) | Null

  /** How a field crosses the wire. `Fees` is signed on write and non-negative on read. */
  datatype Kind = U32 | U64 | I64 | Fees | Text | OptText | Flag | Ratio

  datatype Column = Column(name: string, kind: Kind)

  type Row = seq<Value>

  /** A row-group batch: named columns of equal length, and the memory they take. */
  datatype Batch = Batch(names: seq<string>, columns: seq<seq<Cell>>, rows: nat, bytes: nat)

  /** The field is of the type the row struct gives it. */
  predicate Typed(v: Value, k: Kind)
  {
    match k
    case U32 => v.Int? && FitsU32(v.n)
    case U64 => v.Int? && FitsU64(v.n)
    case I64 => v.Int? && FitsI64(v.n)
    case Fees => v.Int? && FitsI64(v.n)
    case Text => v.Str?
    case OptText => v.Str? || v.Absent?
    case Flag => v.Bool?
    case Ratio => v.Num?
  }

  predicate TypedRow(row: Row, schema: seq<Column>)
  {
    |row| == |schema| && forall j | 0 <= j < |row| :: Typed(row[j], schema[j].kind)
  }

  /** Cross to the wire: an unsigned value that does not fit, or a non-finite ratio, is an error. */
  function Narrow(v: Value, k: Kind): Result<Cell, Error>
    requires Typed(v, k)
  {
    match k
    case U32 => if v.n <= I32_MAX then Ok(Int32(v.n)) else Err(Error.Bundle)
    case U64 => if v.n <= I64_MAX then Ok(Int64(v.n)) else Err(Error.Bundle)
    case I64 => Ok(Int64(v.n))
    case Fees => Ok(Int64(v.n))
    case Text => Ok(Utf8(v.s))
    case OptText => Ok(if v.Str? then Utf8(v.s) else Null)
    case Flag => Ok(Boolean(v.b))
    case Ratio => if v.f.Finite? then Ok(Float64(v.f)) else Err(Error.Bundle)
  }

  function ReadText(s: string, lim: Limits): Result<Value, Error>
  {
    if |s| > lim.maxStringLen then Err(TapeTooLarge(MaxStringLen)) else Ok(Str(s))
  }

  /** Cross back: a null, a negative, an over-long string, or a foreign type is an error. */
  function Widen(c: Cell, k: Kind, lim: Limits): Result<Value, Error>
  {
    match (k, c)
    case (U32, Int32(n)) => if n >= 0 then Ok(Int(n)) else Err(Error.Bundle)
    case (U64, Int64(n)) => if n >= 0 then Ok(Int(n)) else Err(Error.Bundle)
    case (I64, Int64(n)) => Ok(Int(n))
    case (Fees, Int64(n)) => if n >= 0 then Ok(Int(n)) else Err(Error.Bundle)
    case (Text, Utf8(s)) => ReadText(s, lim)
    case (OptText, Utf8(s)) => ReadText(s, lim)
    case (OptText, Null) => Ok(Value.Absent)
    case (Flag, Boolean(b)) => Ok(Bool(b))
    case (Ratio, Float64(f)) => if f.Finite? then Ok(Num(f)) else Err(Error.Bundle)
    case _ => Err(Error.Bundle)
  }

  /** The fields that survive the wire. */
  predicate Crosses(v: Value, k: Kind, lim: Limits)
  {
    match k
    case U32 => v.Int? && 0 <= v.n <= I32_MAX
    case U64 => v.Int? && 0 <= v.n <= I64_MAX
    case I64 => v.Int? && FitsI64(v.n)
    case Fees => v.Int? && 0 <= v.n <= I64_MAX
    case Text => v.Str? && |v.s| <= lim.maxStringLen
    case OptText => v.Absent? || (v.Str? && |v.s| <= lim.maxStringLen)
    case Flag => v.Bool?
    case Ratio => v.Num? && v.f.Finite?
  }

  /** What crosses comes back unchanged, what comes back crossed, and nothing else does. */
  lemma CellRoundTrip(v: Value, k: Kind, lim: Limits)
    requires Typed(v, k)
    ensures Crosses(v, k, lim) <==> Narrow(v, k).Ok? && Widen(Narrow(v, k).value, k, lim).Ok?
    ensures Crosses(v, k, lim) ==> Widen(Narrow(v, k).value, k, lim) == Ok(v)
  {
  }

  lemma WidenCrosses(c: Cell, k: Kind, lim: Limits)
    requires Widen(c, k, lim).Ok?
    ensures Typed(Widen(c, k, lim).value, k) && Crosses(Widen(c, k, lim).value, k, lim)
    ensures Narrow(Widen(c, k, lim).value, k) == Ok(c)
  {
  }

  // ---- Rows ---------------------------------------------------------------

  function NarrowFrom(row: Row, schema: seq<Column>, j: nat): Result<seq<Cell>, Error>
    requires TypedRow(row, schema) && j <= |row|
    decreases |row| - j
  {
    if j == |row| then Ok([])
    else
      var c :- Narrow(row[j], schema[j].kind);
      var rest :- NarrowFrom(row, schema, j + 1);
      Ok([c] + rest)
  }

  function NarrowRow(row: Row, schema: seq<Column>): Result<seq<Cell>, Error>
    requires TypedRow(row, schema)
  {
    NarrowFrom(row, schema, 0)
  }

  function WidenFrom(cells: seq<Cell>, schema: seq<Column>, lim: Limits, j: nat): Result<Row, Error>
    requires |cells| == |schema| && j <= |cells|
    decreases |cells| - j
  {
    if j == |cells| then Ok([])
    else
      var v :- Widen(cells[j], schema[j].kind, lim);
      var rest :- WidenFrom(cells, schema, lim, j + 1);
      Ok([v] + rest)
  }

  function WidenRow(cells: seq<Cell>, schema: seq<Column>, lim: Limits): Result<Row, Error>
    requires |cells| == |schema|
  {
    WidenFrom(cells, schema, lim, 0)
  }

  predicate RowCrosses(row: Row, schema: seq<Column>, lim: Limits)
  {
    |row| == |schema| && forall j | 0 <= j < |row| :: Crosses(row[j], schema[j].kind, lim)
  }

  lemma {:induction false} NarrowFromOk(row: Row, schema: seq<Column>, j: nat)
    requires TypedRow(row, schema) && j <= |row|
    ensures NarrowFrom(row, schema, j).Ok? <==> forall k | j <= k < |row| :: Narrow(row[k], schema[k].kind).Ok?
    ensures NarrowFrom(row, schema, j).Ok? ==>
            var cells := NarrowFrom(row, schema, j).value;
            |cells| == |row| - j && forall k | j <= k < |row| :: Narrow(row[k], schema[k].kind) == Ok(cells[k - j])
    decreases |row| - j
  {
    hide Narrow;
    if j < |row| {
      NarrowFromOk(row, schema, j + 1);
    }
  }

  lemma {:induction false} WidenFromOk(cells: seq<Cell>, schema: seq<Column>, lim: Limits, j: nat)
    requires |cells| == |schema| && j <= |cells|
    ensures WidenFrom(cells, schema, lim, j).Ok? <==> forall k | j <= k < |cells| ::
            Widen(cells[k], schema[k].kind, lim).Ok?
    ensures WidenFrom(cells, schema, lim, j).Ok? ==>
            var row := WidenFrom(cells, schema, lim, j).value;
            |row| == |cells| - j && forall k | j <= k < |cells| ::
                Widen(cells[k], schema[k].kind, lim) == Ok(row[k - j])
    decreases |cells| - j
  {
    hide Widen;
    if j < |cells| {
      WidenFromOk(cells, schema, lim, j + 1);
    }
  }

  lemma NarrowRowOk(row: Row, schema: seq<Column>)
    requires TypedRow(row, schema)
    ensures NarrowRow(row, schema).Ok? <==> forall j | 0 <= j < |row| :: Narrow(row[j], schema[j].kind).Ok?
    ensures NarrowRow(row, schema).Ok? ==>
            var cells := NarrowRow(row, schema).value;
            |cells| == |row| && forall j | 0 <= j < |row| :: Narrow(row[j], schema[j].kind) == Ok(cells[j])
  {
    hide Narrow;
    NarrowFromOk(row, schema, 0);
  }

  lemma WidenRowOk(cells: seq<Cell>, schema: seq<Column>, lim: Limits)
    requires |cells| == |schema|
    ensures WidenRow(cells, schema, lim).Ok? <==> forall j | 0 <= j < |cells| ::
            Widen(cells[j], schema[j].kind, lim).Ok?
    ensures WidenRow(cells, schema, lim).Ok? ==>
            var row := WidenRow(cells, schema, lim).value;
            |row| == |cells| && forall j | 0 <= j < |cells| :: Widen(cells[j], schema[j].kind, lim) == Ok(row[j])
  {
    hide Widen;
    WidenFromOk(cells, schema, lim, 0);
  }

  /** A row survives the wire exactly when each of its fields does, and then unchanged. */
  lemma RowRoundTrip(row: Row, schema: seq<Column>, lim: Limits)
    requires TypedRow(row, schema)
    ensures NarrowRow(row, schema).Ok? ==> |NarrowRow(row, schema).value| == |schema|
    ensures RowCrosses(row, schema, lim) <==>
            NarrowRow(row, schema).Ok? && WidenRow(NarrowRow(row, schema).value, schema, lim).Ok?
    ensures RowCrosses(row, schema, lim) ==> WidenRow(NarrowRow(row, schema).value, schema, lim) == Ok(row)
  {
    hide Narrow, Widen, Crosses, NarrowRow, WidenRow;
    NarrowRowOk(row, schema);
    forall j | 0 <= j < |row|
      ensures Crosses(row[j], schema[j].kind, lim) <==>
              Narrow(row[j], schema[j].kind).Ok? && Widen(Narrow(row[j], schema[j].kind).value, schema[j].kind, lim).Ok?
      ensures Crosses(row[j], schema[j].kind, lim) ==>
              Widen(Narrow(row[j], schema[j].kind).value, schema[j].kind, lim) == Ok(row[j])
    {
      CellRoundTrip(row[j], schema[j].kind, lim);
    }
    if NarrowRow(row, schema).Ok? {
      var cells := NarrowRow(row, schema).value;
      WidenRowOk(cells, schema, lim);
      if RowCrosses(row, schema, lim) {
        var back := WidenRow(cells, schema, lim).value;
        assert forall j | 0 <= j < |row| :: Widen(cells[j], schema[j].kind, lim) == Ok(back[j]);
        assert back == row;
      }
    }
  }

  /** A decoded row is typed and would be written as the cells it came from. */
  lemma WidenedRowCrosses(cells: seq<Cell>, schema: seq<Column>, lim: Limits)
    requires |cells| == |schema| && WidenRow(cells, schema, lim).Ok?
    ensures var row := WidenRow(cells, schema, lim).value;
            TypedRow(row, schema) && RowCrosses(row, schema, lim)
  {
    hide Widen, Typed, Crosses, WidenRow;
    WidenRowOk(cells, schema, lim);
    forall j | 0 <= j < |cells|
      ensures Typed(WidenRow(cells, schema, lim).value[j], schema[j].kind)
      ensures Crosses(WidenRow(cells, schema, lim).value[j], schema[j].kind, lim)
    {
      WidenCrosses(cells[j], schema[j].kind, lim);
    }
  }

  // ---- Columns ------------------------------------------------------------

  function Names(schema: seq<Column>): (r: seq<string>)
    ensures |r| == |schema| && forall j | 0 <= j < |schema| :: r[j] == schema[j].name
  {
    seq(|schema|, j requires 0 <= j < |schema| => schema[j].name)
  }

  ghost predicate DistinctNames(names: seq<string>)
  {
    forall i, j | 0 <= i < j < |names| :: names[i] != names[j]
  }

  /** The physical type of a column. */
  datatype WireType = Int32Type | Int64Type | Utf8Type | BooleanType | Float64Type

  datatype Field = Field(name: string, wire: WireType, nullable: bool)

  function FieldOf(c: Column): Field
  {
    match c.kind
    case U32 => Field(c.name, Int32Type, false)
    case U64 | I64 | Fees => Field(c.name, Int64Type, false)
    case Text => Field(c.name, Utf8Type, false)
    case OptText => Field(c.name, Utf8Type, true)
    case Flag => Field(c.name, BooleanType, false)
    case Ratio => Field(c.name, Float64Type, false)
  }

  function FieldsOf(schema: seq<Column>): (r: seq<Field>)
    ensures |r| == |schema| && forall j | 0 <= j < |schema| :: r[j] == FieldOf(schema[j])
  {
    seq(|schema|, j requires 0 <= j < |schema| => FieldOf(schema[j]))
  }

  /** The first field of this name. */
  function FieldNamed(fields: seq<Field>, name: string): Option<Field>
  {
    if fields == [] then None
    else if fields[0].name == name then Some(fields[0])
    else FieldNamed(fields[1..], name)
  }

  /** `validate_schema`: as many fields as columns, and each column found with its type and nullability. */
  predicate FieldsMatch(fields: seq<Field>, schema: seq<Column>)
  {
    |fields| == |schema| && forall j | 0 <= j < |schema| ::
        FieldNamed(fields, schema[j].name) == Some(FieldOf(schema[j]))
  }

  lemma {:induction false} NamedAt(fields: seq<Field>, j: nat)
    requires j < |fields| && forall i | 0 <= i < j :: fields[i].name != fields[j].name
    ensures FieldNamed(fields, fields[j].name) == Some(fields[j])
  {
    if j > 0 {
      NamedAt(fields[1..], j - 1);
    }
  }

  /** The fields the writer declares pass the reader's check, in whatever order they are looked up. */
  lemma OwnFieldsMatch(schema: seq<Column>)
    requires DistinctNames(Names(schema))
    ensures FieldsMatch(FieldsOf(schema), schema)
  {
    var names := Names(schema);
    forall j | 0 <= j < |schema| ensures FieldNamed(FieldsOf(schema), schema[j].name) == Some(FieldOf(schema[j])) {
      forall i | 0 <= i < j ensures FieldsOf(schema)[i].name != FieldsOf(schema)[j].name {
        assert names[i] != names[j];
      }
      NamedAt(FieldsOf(schema), j);
    }
  }

  /** The batch carries every column of the schema, under its name, in full length. */
  predicate Carries(b: Batch, schema: seq<Column>)
  {
    && |b.names| == |b.columns| == |schema|
    && (forall j | 0 <= j < |b.columns| :: |b.columns[j]| == b.rows)
    && forall j | 0 <= j < |schema| :: schema[j].name in b.names
  }

  function IndexOf(names: seq<string>, name: string): (i: nat)
    requires name in names
    ensures i < |names| && names[i] == name
  {
    if names[0] == name then 0 else 1 + IndexOf(names[1..], name)
  }

  function ColumnNamed(b: Batch, name: string): seq<Cell>
    requires |b.names| == |b.columns| && name in b.names
  {
    b.columns[IndexOf(b.names, name)]
  }

  /** Row `i` of a batch, its cells looked up by column name. */
  function CellsAt(b: Batch, schema: seq<Column>, i: nat): (r: seq<Cell>)
    requires Carries(b, schema) && i < b.rows
    ensures |r| == |schema| && forall j | 0 <= j < |schema| :: r[j] == ColumnNamed(b, schema[j].name)[i]
  {
    seq(|schema|, j requires 0 <= j < |schema| => ColumnNamed(b, schema[j].name)[i])
  }

  /** The rows of a batch, transposed back. */
  function RowsOf(b: Batch, schema: seq<Column>): (r: seq<seq<Cell>>)
    requires Carries(b, schema)
    ensures |r| == b.rows && forall i | 0 <= i < b.rows :: r[i] == CellsAt(b, schema, i)
  {
    seq(b.rows, i requires 0 <= i < b.rows => CellsAt(b, schema, i))
  }

  function CellRows(batches: seq<Batch>, schema: seq<Column>): (r: seq<seq<Cell>>)
    requires forall b | b in batches :: Carries(b, schema)
    ensures forall i | 0 <= i < |r| :: |r[i]| == |schema|
  {
    if batches == [] then []
    else CellRows(batches[..|batches| - 1], schema) + RowsOf(batches[|batches| - 1], schema)
  }

  // ---- The writer's loops -------------------------------------------------

  const WRITE_BATCH_ROWS := 8192

  function NarrowAll(rows: seq<Row>, schema: seq<Column>): Result<seq<seq<Cell>>, Error>
    requires forall i | 0 <= i < |rows| :: TypedRow(rows[i], schema)
  {
    if rows == [] then Ok([])
    else
      var init :- NarrowAll(rows[..|rows| - 1], schema);
      var last :- NarrowRow(rows[|rows| - 1], schema);
      Ok(init + [last])
  }

  lemma {:induction false} NarrowErrorStays(rows: seq<Row>, schema: seq<Column>, i: nat)
    requires (forall k | 0 <= k < |rows| :: TypedRow(rows[k], schema)) && i <= |rows|
    requires NarrowAll(rows[..i], schema).Err?
    ensures NarrowAll(rows, schema) == NarrowAll(rows[..i], schema)
    decreases |rows|
  {
    hide NarrowRow, TypedRow;
    if i < |rows| {
      var init := rows[..|rows| - 1];
      assert init[..i] == rows[..i];
      NarrowErrorStays(init, schema, i);
    } else {
      assert rows[..i] == rows;
    }
  }

  /** Push one cell onto each column vector. */
  function PushCells(columns: seq<seq<Cell>>, cells: seq<Cell>): (r: seq<seq<Cell>>)
    requires |columns| == |cells|
    ensures |r| == |columns| && forall j | 0 <= j < |columns| :: r[j] == columns[j] + [cells[j]]
  {
    seq(|columns|, j requires 0 <= j < |columns| => columns[j] + [cells[j]])
  }

  /** Column `j` of the transposed chunk is field `j` of each of its rows. */
  ghost predicate Transposed(columns: seq<seq<Cell>>, rows: seq<seq<Cell>>, width: nat)
  {
    && |columns| == width
    && (forall i | 0 <= i < |rows| :: |rows[i]| == width)
    && (forall j | 0 <= j < width :: |columns[j]| == |rows|)
    && forall i, j | 0 <= i < |rows| && 0 <= j < width :: columns[j][i] == rows[i][j]
  }

  lemma {:induction false} IndexOfDistinct(names: seq<string>, j: nat)
    requires DistinctNames(names) && j < |names|
    ensures IndexOf(names, names[j]) == j
  {
    var k := IndexOf(names, names[j]);
    assert names[k] == names[j];
  }

  /** Reading a transposed batch by name gives its rows back. */
  lemma TransposeTwice(b: Batch, schema: seq<Column>, rows: seq<seq<Cell>>)
    requires DistinctNames(Names(schema))
    requires b.names == Names(schema) && b.rows == |rows| && Transposed(b.columns, rows, |schema|)
    ensures Carries(b, schema) && RowsOf(b, schema) == rows
  {
    forall j | 0 <= j < |schema| ensures schema[j].name in b.names {
      assert b.names[j] == schema[j].name;
    }
    forall i | 0 <= i < |rows| ensures RowsOf(b, schema)[i] == rows[i] {
      forall j | 0 <= j < |schema| ensures CellsAt(b, schema, i)[j] == rows[i][j] {
        assert b.names[j] == schema[j].name;
        IndexOfDistinct(b.names, j);
      }
    }
  }

  method EncodeChunk(chunk: seq<Row>, schema: seq<Column>) returns (r: Result<Batch, Error>)
    requires forall i | 0 <= i < |chunk| :: TypedRow(chunk[i], schema)
    requires DistinctNames(Names(schema))
    ensures match NarrowAll(chunk, schema)
            case Ok(cells) => r.Ok? && Carries(r.value, schema) && RowsOf(r.value, schema) == cells &&
                r.value.rows == |chunk|
            case Err(e) => r == Err(e)
  {
    hide NarrowRow, TypedRow, CellsAt;
    var columns: seq<seq<Cell>> := seq(|schema|, _ => []);
    ghost var cells: seq<seq<Cell>> := [];
    var i := 0;
    while i < |chunk|
      invariant 0 <= i <= |chunk|
      invariant NarrowAll(chunk[..i], schema) == Ok(cells) && |cells| == i
      invariant Transposed(columns, cells, |schema|)
    {
      assert chunk[..i + 1][..i] == chunk[..i];
      var narrowed := NarrowRow(chunk[i], schema);
      if narrowed.Err? {
        NarrowErrorStays(chunk, schema, i + 1);
        return Err(narrowed.error);
      }
      NarrowedWidth(chunk[i], schema);
      columns := PushCells(columns, narrowed.value);
      cells := cells + [narrowed.value];
      i := i + 1;
    }
    assert chunk[..i] == chunk;
    var b := Batch(Names(schema), columns, |chunk|, 0);
    TransposeTwice(b, schema, cells);
    return Ok(b);
  }

  lemma NarrowedWidth(row: Row, schema: seq<Column>)
    requires TypedRow(row, schema) && NarrowRow(row, schema).Ok?
    ensures |NarrowRow(row, schema).value| == |schema|
  {
    hide Narrow;
    NarrowRowOk(row, schema);
  }

  lemma {:induction false} NarrowAllAppend(a: seq<Row>, b: seq<Row>, schema: seq<Column>)
    requires forall i | 0 <= i < |a| :: TypedRow(a[i], schema)
    requires forall i | 0 <= i < |b| :: TypedRow(b[i], schema)
    ensures NarrowAll(a, schema).Ok? ==>
            NarrowAll(a + b, schema) ==
              (if NarrowAll(b, schema).Ok? then Ok(NarrowAll(a, schema).value + NarrowAll(b, schema).value)
               else NarrowAll(b, schema))
    decreases |b|
  {
    hide NarrowRow, TypedRow;
    if b == [] {
      assert a + b == a;
      assert NarrowAll(b, schema) == Ok([]);
      if NarrowAll(a, schema).Ok? {
        assert NarrowAll(a, schema).value + [] == NarrowAll(a, schema).value;
      }
    } else {
      var b0 := b[..|b| - 1];
      assert (a + b)[..|a + b| - 1] == a + b0 && (a + b)[|a + b| - 1] == b[|b| - 1];
      NarrowAllAppend(a, b0, schema);
      if NarrowAll(a, schema).Ok? && NarrowAll(b, schema).Ok? {
        var x, y, z := NarrowAll(a, schema).value, NarrowAll(b0, schema).value, NarrowRow(b[|b| - 1], schema).value;
        assert x + y + [z] == x + (y + [z]);
      }
    }
  }

  /**
   The chunk loop of every `encode_*`: sorted rows in batches of 8192. The file
   holds the narrowed rows in order, or nothing is written.
   */
  method EncodeTable(rows: seq<Row>, schema: seq<Column>) returns (r: Result<seq<Batch>, Error>)
    requires forall i | 0 <= i < |rows| :: TypedRow(rows[i], schema)
    requires DistinctNames(Names(schema))
    ensures r.Ok? ==> forall b | b in r.value :: Carries(b, schema) && 0 < b.rows <= WRITE_BATCH_ROWS
    ensures match NarrowAll(rows, schema)
            case Ok(cells) => r.Ok? && CellRows(r.value, schema) == cells
            case Err(e) => r == Err(e)
  {
    hide TypedRow, NarrowRow, Carries, RowsOf;
    var batches: seq<Batch> := [];
    var start := 0;
    while start < |rows|
      invariant 0 <= start <= |rows|
      invariant forall b | b in batches :: Carries(b, schema) && 0 < b.rows <= WRITE_BATCH_ROWS
      invariant NarrowAll(rows[..start], schema) == Ok(CellRows(batches, schema))
    {
      var end := if start + WRITE_BATCH_ROWS <= |rows| then start + WRITE_BATCH_ROWS else |rows|;
      var chunk := rows[start..end];
      assert rows[..start] + chunk == rows[..end];
      NarrowAllAppend(rows[..start], chunk, schema);
      var b := EncodeChunk(chunk, schema);
      if b.Err? {
        NarrowErrorStays(rows, schema, end);
        return Err(b.error);
      }
      var batches' := batches + [b.value];
      assert batches'[..|batches'| - 1] == batches;
      batches := batches';
      start := end;
    }
    assert rows[..start] == rows;
    return Ok(batches);
  }
}
