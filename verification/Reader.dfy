/** `read_bundle` after the manifest: decode four tables, check them, sort them, scan them (src/bundle/reader.rs). */
module Reader {
  import opened Common
  import opened Sorting
  import opened Columns
  import opened ContractId

  // ---- Table schemas (docs/05 sections 7 to 10) ---------------------------

  const FILLS: seq<Column> := [
    Column("step", U32), Column("ts_ns", I64), Column("strategy_run_id", Text), Column("trade_id", U64),
    Column("position_id", U64), Column("order_id", U64), Column("fill_seq", U32), Column("underlying", Text),
    Column("expiration_ns", I64), Column("contract_id", Text), Column("strike_cents", U64), Column("style", Text),
    Column("side", Text), Column("quantity", U32), Column("price_cents", U64), Column("fees_cents", Fees),
    Column("slippage_cents", I64), Column("mode", Text)]

  const EQUITY: seq<Column> := [
    Column("step", U32), Column("ts_ns", I64), Column("cash_cents", I64),
    Column("position_value_cents", I64), Column("equity_cents", I64), Column("drawdown", Ratio)]

  const POSITIONS: seq<Column> := [
    Column("step", U32), Column("ts_ns", I64), Column("position_id", U64), Column("trade_id", U64),
    Column("contract_id", Text), Column("side", Text), Column("quantity", U32), Column("avg_price_cents", U64),
    Column("mark_cents", U64), Column("unrealized_cents", I64), Column("stale_mark", Flag),
    Column("exit_reason", OptText), Column("open_at_end", Flag)]

  const GREEKS: seq<Column> := [
    Column("step", U32), Column("ts_ns", I64), Column("theta_pnl_cents", I64), Column("delta_pnl_cents", I64),
    Column("vega_pnl_cents", I64), Column("spread_capture_cents", I64), Column("fees_cents", Fees),
    Column("residual_cents", I64)]

  lemma FillNamesDistinct()
    ensures DistinctNames(Names(FILLS))
  {
    var names := Names(FILLS);
    FirstNamesDistinct(names[..9]);
    LastNamesDistinct(names[9..]);
    NamesApart(names[..9], names[9..]);
    assert names == names[..9] + names[9..];
  }

  lemma FirstNamesDistinct(names: seq<string>)
    requires names == ["step", "ts_ns", "strategy_run_id", "trade_id", "position_id", "order_id", "fill_seq",
                       "underlying", "expiration_ns"]
    ensures DistinctNames(names)
  {
  }

  lemma LastNamesDistinct(names: seq<string>)
    requires names == ["contract_id", "strike_cents", "style", "side", "quantity", "price_cents", "fees_cents",
                       "slippage_cents", "mode"]
    ensures DistinctNames(names)
  {
  }

  lemma NamesApart(first: seq<string>, last: seq<string>)
    requires first == ["step", "ts_ns", "strategy_run_id", "trade_id", "position_id", "order_id", "fill_seq",
                       "underlying", "expiration_ns"]
    requires last == ["contract_id", "strike_cents", "style", "side", "quantity", "price_cents", "fees_cents",
                       "slippage_cents", "mode"]
    ensures forall i, j | 0 <= i < |first| && 0 <= j < |last| :: first[i] != last[j]
  {
  }

  lemma EquityNamesDistinct()
    ensures DistinctNames(Names(EQUITY))
  {
  }

  lemma PositionNamesDistinct()
    ensures DistinctNames(Names(POSITIONS))
  {
  }

  lemma GreeksNamesDistinct()
    ensures DistinctNames(Names(GREEKS))
  {
  }

  /** The schema of each table on the wire: names, physical types, and the one column that may be null. */
  lemma FillsWire()
    ensures FieldsOf(FILLS) == [
              Field("step", Int32Type, false), Field("ts_ns", Int64Type, false),
              Field("strategy_run_id", Utf8Type, false), Field("trade_id", Int64Type, false),
              Field("position_id", Int64Type, false), Field("order_id", Int64Type, false),
              Field("fill_seq", Int32Type, false), Field("underlying", Utf8Type, false),
              Field("expiration_ns", Int64Type, false), Field("contract_id", Utf8Type, false),
              Field("strike_cents", Int64Type, false), Field("style", Utf8Type, false),
              Field("side", Utf8Type, false), Field("quantity", Int32Type, false),
              Field("price_cents", Int64Type, false), Field("fees_cents", Int64Type, false),
              Field("slippage_cents", Int64Type, false), Field("mode", Utf8Type, false)]
  {
  }

  lemma EquityWire()
    ensures FieldsOf(EQUITY) == [
              Field("step", Int32Type, false), Field("ts_ns", Int64Type, false), Field("cash_cents", Int64Type, false),
              Field("position_value_cents", Int64Type, false), Field("equity_cents", Int64Type, false),
              Field("drawdown", Float64Type, false)]
  {
  }

  lemma PositionsWire()
    ensures FieldsOf(POSITIONS) == [
              Field("step", Int32Type, false), Field("ts_ns", Int64Type, false),
              Field("position_id", Int64Type, false), Field("trade_id", Int64Type, false),
              Field("contract_id", Utf8Type, false), Field("side", Utf8Type, false),
              Field("quantity", Int32Type, false), Field("avg_price_cents", Int64Type, false),
              Field("mark_cents", Int64Type, false), Field("unrealized_cents", Int64Type, false),
              Field("stale_mark", BooleanType, false), Field("exit_reason", Utf8Type, true),
              Field("open_at_end", BooleanType, false)]
  {
  }

  lemma GreeksWire()
    ensures FieldsOf(GREEKS) == [
              Field("step", Int32Type, false), Field("ts_ns", Int64Type, false),
              Field("theta_pnl_cents", Int64Type, false), Field("delta_pnl_cents", Int64Type, false),
              Field("vega_pnl_cents", Int64Type, false), Field("spread_capture_cents", Int64Type, false),
              Field("fees_cents", Int64Type, false), Field("residual_cents", Int64Type, false)]
  {
  }

  function IntAt(row: Row, j: nat): int
  {
    if j < |row| && row[j].Int? then row[j].n else 0
  }

  function StrAt(row: Row, j: nat): string
  {
    if j < |row| && row[j].Str? then row[j].s else ""
  }

  function StepOf(row: Row): int { IntAt(row, 0) }

  /** `(step, order_id, fill_seq)`. */
  function FillKey(row: Row): Key { [IntAt(row, 0), IntAt(row, 5), IntAt(row, 6)] }

  /** `(step, position_id)`. */
  function PositionKey(row: Row): Key { [IntAt(row, 0), IntAt(row, 2)] }

  /** `step`, the key of both per-step tables. */
  function StepKey(row: Row): Key { [IntAt(row, 0)] }

  // ---- decode_table -------------------------------------------------------

  /** A Parquet table: what its footer declares, and the batches it decodes to. */
  datatype TableFile = TableFile(fields: seq<Field>, declaredRows: int, declaredBytes: nat, batches: seq<Batch>)

  function RowTotal(batches: seq<Batch>): nat
  {
    if batches == [] then 0 else RowTotal(batches[..|batches| - 1]) + batches[|batches| - 1].rows
  }

  function ByteTotal(batches: seq<Batch>): nat
  {
    if batches == [] then 0 else ByteTotal(batches[..|batches| - 1]) + batches[|batches| - 1].bytes
  }

  predicate WithinCeilings(f: TableFile, lim: Limits)
  {
    && 0 <= f.declaredRows <= lim.maxRowsPerTable && f.declaredBytes <= lim.maxDecompressedBytes
    && RowTotal(f.batches) <= lim.maxRowsPerTable && ByteTotal(f.batches) <= lim.maxDecompressedBytes
  }

  predicate ValidSchema(f: TableFile, schema: seq<Column>)
  {
    FieldsMatch(f.fields, schema) && forall b | b in f.batches :: Carries(b, schema)
  }

  function WidenAll(cells: seq<seq<Cell>>, schema: seq<Column>, lim: Limits): Result<seq<Row>, Error>
    requires forall i | 0 <= i < |cells| :: |cells[i]| == |schema|
  {
    if cells == [] then Ok([])
    else
      var init :- WidenAll(cells[..|cells| - 1], schema, lim);
      var last :- WidenRow(cells[|cells| - 1], schema, lim);
      Ok(init + [last])
  }

  /** What the file decodes to: a function of its rows, not of their batches. */
  ghost predicate DecodesTo(f: TableFile, schema: seq<Column>, lim: Limits, rows: seq<Row>)
  {
    && WithinCeilings(f, lim) && ValidSchema(f, schema)
    && WidenAll(CellRows(f.batches, schema), schema, lim) == Ok(rows)
  }

  lemma {:induction false} WidenErrorStays(cells: seq<seq<Cell>>, schema: seq<Column>, lim: Limits, i: nat)
    requires (forall k | 0 <= k < |cells| :: |cells[k]| == |schema|) && i <= |cells|
    requires WidenAll(cells[..i], schema, lim).Err?
    ensures WidenAll(cells, schema, lim).Err?
    decreases |cells|
  {
    hide WidenRow;
    if i < |cells| {
      var init := cells[..|cells| - 1];
      assert init[..i] == cells[..i];
      WidenErrorStays(init, schema, lim, i);
    } else {
      assert cells[..i] == cells;
    }
  }

  lemma {:induction false} BatchPrefix(batches: seq<Batch>, schema: seq<Column>, i: nat)
    requires (forall b | b in batches :: Carries(b, schema)) && i <= |batches|
    ensures var all, part := CellRows(batches, schema), CellRows(batches[..i], schema);
            |part| <= |all| && all[..|part|] == part
    ensures RowTotal(batches[..i]) <= RowTotal(batches) && ByteTotal(batches[..i]) <= ByteTotal(batches)
    decreases |batches|
  {
    hide Carries, RowsOf;
    if i == |batches| {
      assert batches[..i] == batches;
    } else {
      var init := batches[..|batches| - 1];
      assert init[..i] == batches[..i];
      BatchPrefix(init, schema, i);
      assert CellRows(batches, schema) == CellRows(init, schema) + RowsOf(batches[|batches| - 1], schema);
    }
  }

  lemma WidenSnoc(cells: seq<seq<Cell>>, last: seq<Cell>, schema: seq<Column>, lim: Limits)
    requires (forall k | 0 <= k < |cells| :: |cells[k]| == |schema|) && |last| == |schema|
    requires WidenAll(cells, schema, lim).Ok?
    ensures WidenAll(cells + [last], schema, lim) ==
              match WidenRow(last, schema, lim)
              case Ok(row) => Ok(WidenAll(cells, schema, lim).value + [row])
              case Err(e) => Err(e)
  {
    hide WidenRow;
    var all := cells + [last];
    assert all[..|all| - 1] == cells;
  }

  /** `decode_*_batch`: push every row of one batch onto `out`. */
  method DecodeBatch(b: Batch, schema: seq<Column>, lim: Limits, out: seq<Row>, ghost before: seq<seq<Cell>>)
    returns (r: Result<seq<Row>, Error>)
    requires Carries(b, schema) && forall k | 0 <= k < |before| :: |before[k]| == |schema|
    requires WidenAll(before, schema, lim) == Ok(out)
    ensures r.Ok? <==> WidenAll(before + RowsOf(b, schema), schema, lim).Ok?
    ensures r.Ok? ==> WidenAll(before + RowsOf(b, schema), schema, lim) == r
  {
    hide WidenRow, WidenAll, Carries, CellsAt;
    var rows := RowsOf(b, schema);
    var out' := out;
    var i := 0;
    assert before + rows[..0] == before;
    while i < b.rows
      invariant 0 <= i <= b.rows
      invariant WidenAll(before + rows[..i], schema, lim) == Ok(out')
    {
      ghost var upTo := before + rows[..i + 1];
      assert upTo == (before + rows[..i]) + [rows[i]];
      WidenSnoc(before + rows[..i], rows[i], schema, lim);
      var row := WidenRow(CellsAt(b, schema, i), schema, lim);
      if row.Err? {
        assert (before + rows)[..|upTo|] == upTo;
        WidenErrorStays(before + rows, schema, lim, |upTo|);
        return Err(row.error);
      }
      out' := out' + [row.value];
      i := i + 1;
    }
    assert before + rows[..i] == before + rows;
    return Ok(out');
  }

  method DecodeTable(f: TableFile, schema: seq<Column>, lim: Limits) returns (r: Result<seq<Row>, Error>)
    ensures r.Ok? ==> DecodesTo(f, schema, lim, r.value)
    ensures r.Err? ==> forall rows :: !DecodesTo(f, schema, lim, rows)
  {
    hide Carries, WidenAll, RowsOf;
    if f.declaredRows < 0 {
      return Err(Error.Bundle);
    }
    if f.declaredRows > lim.maxRowsPerTable {
      return Err(TapeTooLarge(MaxRowsPerTable));
    }
    if f.declaredBytes > lim.maxDecompressedBytes {
      return Err(TapeTooLarge(MaxDecompressedBytes));
    }
    if !ValidSchema(f, schema) {
      return Err(Error.Bundle);
    }
    var out: seq<Row> := [];
    var decodedRows, decodedBytes := 0, 0;
    var i := 0;
    WidenNone(schema, lim);
    while i < |f.batches|
      invariant 0 <= i <= |f.batches|
      invariant decodedRows == RowTotal(f.batches[..i]) <= lim.maxRowsPerTable
      invariant decodedBytes == ByteTotal(f.batches[..i]) <= lim.maxDecompressedBytes
      invariant WidenAll(CellRows(f.batches[..i], schema), schema, lim) == Ok(out)
    {
      ghost var upTo := f.batches[..i + 1];
      assert upTo[..i] == f.batches[..i] && upTo[i] == f.batches[i];
      BatchPrefix(f.batches, schema, i + 1);
      decodedRows := decodedRows + f.batches[i].rows;
      if decodedRows > lim.maxRowsPerTable {
        return Err(TapeTooLarge(MaxRowsPerTable));
      }
      decodedBytes := decodedBytes + f.batches[i].bytes;
      if decodedBytes > lim.maxDecompressedBytes {
        return Err(TapeTooLarge(MaxDecompressedBytes));
      }
      var decoded := DecodeBatch(f.batches[i], schema, lim, out, CellRows(f.batches[..i], schema));
      assert CellRows(upTo, schema) == CellRows(f.batches[..i], schema) + RowsOf(f.batches[i], schema);
      if decoded.Err? {
        WidenErrorStays(CellRows(f.batches, schema), schema, lim, |CellRows(upTo, schema)|);
        return Err(decoded.error);
      }
      out := decoded.value;
      i := i + 1;
    }
    assert f.batches[..i] == f.batches;
    return Ok(out);
  }

  lemma WidenNone(schema: seq<Column>, lim: Limits)
    ensures WidenAll([], schema, lim) == Ok([])
  {
  }

  // ---- The scans on sorted tables -----------------------------------------

  /** `validate_unique_fill_keys` and `validate_unique_position_keys`: adjacent equal keys. */
  method ValidateUniqueKeys(rows: seq<Row>, key: Row -> Key) returns (r: Result<(), Error>)
    requires SortedBy(rows, key)
    ensures r.Ok? <==> DistinctKeys(rows, key)
  {
    var prev: Option<Key> := None;
    var i := 0;
    while i < |rows|
      invariant 0 <= i <= |rows|
      invariant prev == if i == 0 then None else Some(key(rows[i - 1]))
      invariant forall a, b | 0 <= a < b < i :: Less(key(rows[a]), key(rows[b]))
    {
      var k := key(rows[i]);
      if prev == Some(k) {
        return Err(Error.Bundle);
      }
      if i > 0 {
        LessTrichotomy(key(rows[i - 1]), k);
        forall a | 0 <= a < i - 1 ensures Less(key(rows[a]), k) {
          LessTransitive(key(rows[a]), key(rows[i - 1]), k);
        }
      }
      prev := Some(k);
      i := i + 1;
    }
    forall a, b | 0 <= a < b < |rows| ensures key(rows[a]) != key(rows[b]) {
      LessTrichotomy(key(rows[a]), key(rows[b]));
    }
    return Ok(());
  }

  /** `validate_contiguous_steps`. */
  method ValidateContiguousSteps(rows: seq<Row>) returns (r: Result<(), Error>)
    ensures r.Ok? <==> forall i | 0 <= i < |rows| :: StepOf(rows[i]) == i && FitsU32(i)
  {
    var i := 0;
    while i < |rows|
      invariant 0 <= i <= |rows|
      invariant forall k | 0 <= k < i :: StepOf(rows[k]) == k && FitsU32(k)
    {
      if !FitsU32(i) {
        return Err(ArithmeticOverflow);
      }
      if StepOf(rows[i]) != i {
        return Err(Error.Bundle);
      }
      i := i + 1;
    }
    return Ok(());
  }

  lemma LastStepIsGreatest(rows: seq<Row>, key: Row -> Key)
    requires SortedBy(rows, key) && rows != []
    requires forall row | row in rows :: key(row) != [] && key(row)[0] == StepOf(row)
    ensures forall i | 0 <= i < |rows| :: StepOf(rows[i]) <= StepOf(rows[|rows| - 1])
  {
    forall i | 0 <= i < |rows| ensures StepOf(rows[i]) <= StepOf(rows[|rows| - 1]) {
      assert rows[i] in rows && rows[|rows| - 1] in rows;
      if i < |rows| - 1 {
        assert !Less(key(rows[|rows| - 1]), key(rows[i]));
      }
    }
  }

  /** `validate_cross_table_step_consistency`: only the last row of each sorted table is looked at. */
  method ValidateCrossTable(fills: seq<Row>, positions: seq<Row>, equity: seq<Row>, greeks: seq<Row>)
    returns (r: Result<(), Error>)
    requires SortedBy(fills, FillKey) && SortedBy(positions, PositionKey)
    ensures r.Ok? <==>
            && |equity| == |greeks| && FitsU32(|equity|)
            && (forall i | 0 <= i < |fills| :: StepOf(fills[i]) < |equity|)
            && (forall i | 0 <= i < |positions| :: StepOf(positions[i]) < |equity|)
  {
    if |equity| != |greeks| {
      return Err(Error.Bundle);
    }
    if !FitsU32(|equity|) {
      return Err(ArithmeticOverflow);
    }
    if |fills| > 0 {
      LastStepIsGreatest(fills, FillKey);
      if StepOf(fills[|fills| - 1]) >= |equity| {
        return Err(Error.Bundle);
      }
    }
    if |positions| > 0 {
      LastStepIsGreatest(positions, PositionKey);
      if StepOf(positions[|positions| - 1]) >= |equity| {
        return Err(Error.Bundle);
      }
    }
    return Ok(());
  }

  // ---- read_bundle --------------------------------------------------------

  datatype Counts = Counts(fills: nat, equity: nat, positions: nat, greeks: nat)

  /**
   A bundle directory: the manifest fields the tables are checked against, and
   whether the referenced input, where reachable, hashes as recorded.
   */
  datatype BundleFiles = BundleFiles(
    runId: string, counts: Counts, inputMatches: bool,
    fills: TableFile, equity: TableFile, positions: TableFile, greeks: TableFile)

  /** The four decoded tables. */
  datatype Tables = Tables(fills: seq<Row>, equity: seq<Row>, positions: seq<Row>, greeks: seq<Row>)

  function IdentityOf(row: Row): FillIdentity
    requires TypedRow(row, FILLS)
  {
    FillIdentity(StrAt(row, 9), StrAt(row, 7), IntAt(row, 8), IntAt(row, 10), StrAt(row, 11))
  }

  ghost predicate TypedTable(rows: seq<Row>, schema: seq<Column>)
  {
    forall i | 0 <= i < |rows| :: TypedRow(rows[i], schema)
  }

  ghost predicate DecodedTables(b: BundleFiles, lim: Limits, t: Tables)
  {
    && DecodesTo(b.fills, FILLS, lim, t.fills) && DecodesTo(b.equity, EQUITY, lim, t.equity)
    && DecodesTo(b.positions, POSITIONS, lim, t.positions) && DecodesTo(b.greeks, GREEKS, lim, t.greeks)
  }

  /** The row checks of stages 4 to 6: counts, referenced input, identifiers, run id. */
  ghost predicate RowChecks(b: BundleFiles, t: Tables)
    requires TypedTable(t.fills, FILLS)
  {
    && Counts(|t.fills|, |t.equity|, |t.positions|, |t.greeks|) == b.counts && b.inputMatches
    && (forall i | 0 <= i < |t.fills| :: VerifyFillId(IdentityOf(t.fills[i])).Ok? && StrAt(t.fills[i], 2) == b.runId)
    && forall i | 0 <= i < |t.positions| :: VerifyPositionId(StrAt(t.positions[i], 4)).Ok?
  }

  /** The steps of a per-step table are exactly `0 .. n - 1`, one row each. */
  ghost predicate StepsExactly(rows: seq<Row>)
  {
    DistinctKeys(rows, StepKey) && forall i | 0 <= i < |rows| :: 0 <= StepOf(rows[i]) < |rows|
  }

  /** What the structural scans are for, said of the tables in any order. */
  ghost predicate Structured(t: Tables)
  {
    && DistinctKeys(t.fills, FillKey) && DistinctKeys(t.positions, PositionKey)
    && StepsExactly(t.equity) && StepsExactly(t.greeks) && |t.equity| == |t.greeks|
    && (forall i | 0 <= i < |t.fills| :: StepOf(t.fills[i]) < |t.equity|)
    && (forall i | 0 <= i < |t.positions| :: StepOf(t.positions[i]) < |t.equity|)
  }

  function SortTables(t: Tables): Tables
  {
    Tables(Sort(t.fills, FillKey), Sort(t.equity, StepKey), Sort(t.positions, PositionKey), Sort(t.greeks, StepKey))
  }

  lemma {:induction false} WidenAllTyped(cells: seq<seq<Cell>>, schema: seq<Column>, lim: Limits)
    requires forall i | 0 <= i < |cells| :: |cells[i]| == |schema|
    requires WidenAll(cells, schema, lim).Ok?
    ensures var rows := WidenAll(cells, schema, lim).value;
            |rows| == |cells| && TypedTable(rows, schema) &&
            forall i | 0 <= i < |rows| :: RowCrosses(rows[i], schema, lim)
  {
    hide WidenRow, TypedRow, RowCrosses;
    if cells != [] {
      WidenAllTyped(cells[..|cells| - 1], schema, lim);
      WidenedRowCrosses(cells[|cells| - 1], schema, lim);
    }
  }

  lemma DecodedTyped(f: TableFile, schema: seq<Column>, lim: Limits, rows: seq<Row>)
    requires DecodesTo(f, schema, lim, rows)
    ensures TypedTable(rows, schema) && forall i | 0 <= i < |rows| :: RowCrosses(rows[i], schema, lim)
  {
    WidenAllTyped(CellRows(f.batches, schema), schema, lim);
  }

  lemma LessOne(a: int, b: int)
    ensures Less([a], [b]) <==> a < b
  {
  }

  /** A strictly increasing integer sequence below its length, from zero up, counts. */
  lemma {:induction false} StrictlyBoundedCounts(rows: seq<Row>, i: nat)
    requires StrictlySortedBy(rows, StepKey) && i < |rows|
    requires forall k | 0 <= k < |rows| :: 0 <= StepOf(rows[k])
    ensures StepOf(rows[i]) >= i
  {
    if i > 0 {
      StrictlyBoundedCounts(rows, i - 1);
      assert Less(StepKey(rows[i - 1]), StepKey(rows[i]));
      LessOne(StepOf(rows[i - 1]), StepOf(rows[i]));
    }
  }

  lemma {:induction false} StrictlyBoundedCountsDown(rows: seq<Row>, i: nat)
    requires StrictlySortedBy(rows, StepKey) && i < |rows|
    requires forall k | 0 <= k < |rows| :: StepOf(rows[k]) < |rows|
    ensures StepOf(rows[i]) <= i
    decreases |rows| - i
  {
    if i + 1 < |rows| {
      StrictlyBoundedCountsDown(rows, i + 1);
      assert Less(StepKey(rows[i]), StepKey(rows[i + 1]));
      LessOne(StepOf(rows[i]), StepOf(rows[i + 1]));
    }
  }

  /** The contiguity scan after sorting decides whether the steps are exactly `0 .. n - 1`. */
  lemma ContiguousIffExact(rows: seq<Row>)
    ensures |Sort(rows, StepKey)| == |rows|
    ensures (forall i | 0 <= i < |rows| :: StepOf(Sort(rows, StepKey)[i]) == i) <==> StepsExactly(rows)
  {
    var s := Sort(rows, StepKey);
    SortCorrect(rows, StepKey);
    DistinctIffStrict(rows, StepKey);
    if StepsExactly(rows) {
      forall k | 0 <= k < |s| ensures 0 <= StepOf(s[k]) < |s| {
        ElementOf(s[k], s, rows);
      }
      forall i | 0 <= i < |s| ensures StepOf(s[i]) == i {
        StrictlyBoundedCounts(s, i);
        StrictlyBoundedCountsDown(s, i);
      }
    }
    if forall i | 0 <= i < |rows| :: StepOf(s[i]) == i {
      forall k | 0 <= k < |rows| ensures 0 <= StepOf(rows[k]) < |rows| {
        ElementOf(rows[k], rows, s);
      }
      forall i, j | 0 <= i < j < |s| ensures Less(StepKey(s[i]), StepKey(s[j])) {
        LessOne(StepOf(s[i]), StepOf(s[j]));
      }
    }
  }

  lemma BoundSurvives(s: seq<Row>, t: seq<Row>, n: int)
    requires multiset(s) == multiset(t) && forall i | 0 <= i < |s| :: StepOf(s[i]) < n
    ensures forall i | 0 <= i < |t| :: StepOf(t[i]) < n
  {
    forall i | 0 <= i < |t| ensures StepOf(t[i]) < n {
      ElementOf(t[i], t, s);
    }
  }

  /** Key uniqueness and the step bound are the same before and after sorting. */
  lemma SortKeepsKeyFacts(rows: seq<Row>, key: Row -> Key, n: int)
    ensures DistinctKeys(Sort(rows, key), key) <==> DistinctKeys(rows, key)
    ensures (forall i | 0 <= i < |Sort(rows, key)| :: StepOf(Sort(rows, key)[i]) < n) <==>
            (forall i | 0 <= i < |rows| :: StepOf(rows[i]) < n)
  {
    hide StepOf, Sort;
    var s := Sort(rows, key);
    SortCorrect(rows, key);
    if DistinctKeys(rows, key) { DistinctSurvivesPermutation(rows, s, key); }
    if DistinctKeys(s, key) { DistinctSurvivesPermutation(s, rows, key); }
    if forall i | 0 <= i < |rows| :: StepOf(rows[i]) < n { BoundSurvives(rows, s, n); }
    if forall i | 0 <= i < |s| :: StepOf(s[i]) < n { BoundSurvives(s, rows, n); }
  }

  /** The four scans on the sorted tables, as the code runs them. */
  ghost predicate ScansPass(t: Tables)
  {
    && DistinctKeys(t.fills, FillKey) && DistinctKeys(t.positions, PositionKey)
    && (forall i | 0 <= i < |t.equity| :: StepOf(t.equity[i]) == i && FitsU32(i))
    && (forall i | 0 <= i < |t.greeks| :: StepOf(t.greeks[i]) == i && FitsU32(i))
    && |t.equity| == |t.greeks| && FitsU32(|t.equity|)
    && (forall i | 0 <= i < |t.fills| :: StepOf(t.fills[i]) < |t.equity|)
    && (forall i | 0 <= i < |t.positions| :: StepOf(t.positions[i]) < |t.equity|)
  }

  /**
   Looking only at neighbours, positions and last rows of the sorted tables
   decides the structure of the unsorted ones. The step count cannot overflow
   because a decoded step is at most 2^31 - 1.
   */
  lemma ScansDecideStructure(t: Tables)
    requires forall i | 0 <= i < |t.equity| :: StepOf(t.equity[i]) <= I32_MAX
    ensures ScansPass(SortTables(t)) <==> Structured(t)
  {
    hide StepsExactly, Sort, StepOf, DistinctKeys;
    SortKeepsKeyFacts(t.fills, FillKey, |t.equity|);
    SortKeepsKeyFacts(t.positions, PositionKey, |t.equity|);
    ContiguousIffExact(t.equity);
    ContiguousIffExact(t.greeks);
    if StepsExactly(t.equity) { StepsFitU32(t.equity); }
  }

  lemma StepsFitU32(rows: seq<Row>)
    requires StepsExactly(rows) && forall i | 0 <= i < |rows| :: StepOf(rows[i]) <= I32_MAX
    ensures |rows| <= I32_MAX + 1
  {
    if |rows| > 0 {
      ContiguousIffExact(rows);
      SortCorrect(rows, StepKey);
      var s := Sort(rows, StepKey);
      ElementOf(s[|rows| - 1], s, rows);
    }
  }

  /** When a bundle is accepted. */
  ghost predicate Accepts(b: BundleFiles, lim: Limits, t: Tables)
  {
    DecodedTables(b, lim, t) && TypedTable(t.fills, FILLS) && RowChecks(b, t) && Structured(t)
  }

  method CheckRows(b: BundleFiles, t: Tables) returns (r: Result<(), Error>)
    requires TypedTable(t.fills, FILLS)
    ensures r.Ok? <==> RowChecks(b, t)
  {
    hide VerifyFillId, VerifyPositionId, TypedRow;
    if Counts(|t.fills|, |t.equity|, |t.positions|, |t.greeks|) != b.counts || !b.inputMatches {
      return Err(Error.Bundle);
    }
    var i := 0;
    while i < |t.fills|
      invariant 0 <= i <= |t.fills|
      invariant forall k | 0 <= k < i :: VerifyFillId(IdentityOf(t.fills[k])).Ok? && StrAt(t.fills[k], 2) == b.runId
    {
      if VerifyFillId(IdentityOf(t.fills[i])).Err? || StrAt(t.fills[i], 2) != b.runId {
        return Err(Error.Bundle);
      }
      i := i + 1;
    }
    i := 0;
    while i < |t.positions|
      invariant 0 <= i <= |t.positions|
      invariant forall k | 0 <= k < i :: VerifyPositionId(StrAt(t.positions[k], 4)).Ok?
    {
      if VerifyPositionId(StrAt(t.positions[i], 4)).Err? {
        return Err(Error.Bundle);
      }
      i := i + 1;
    }
    return Ok(());
  }

  method RunScans(t: Tables) returns (r: Result<(), Error>)
    requires SortedBy(t.fills, FillKey) && SortedBy(t.positions, PositionKey)
    ensures r.Ok? <==> ScansPass(t)
  {
    r := ValidateUniqueKeys(t.fills, FillKey);
    if r.Err? { return; }
    r := ValidateUniqueKeys(t.positions, PositionKey);
    if r.Err? { return; }
    r := ValidateContiguousSteps(t.equity);
    if r.Err? { return; }
    r := ValidateContiguousSteps(t.greeks);
    if r.Err? { return; }
    r := ValidateCrossTable(t.fills, t.positions, t.equity, t.greeks);
  }

  /** A bundle is read exactly when it is accepted, and then as its sorted tables. */
  method ReadBundle(b: BundleFiles, lim: Limits) returns (r: Result<Tables, Error>)
    ensures r.Ok? <==> exists t :: Accepts(b, lim, t)
    ensures r.Ok? ==> exists t :: Accepts(b, lim, t) && r.value == SortTables(t)
  {
    hide DecodesTo, RowChecks, Structured, ScansPass, RowCrosses, TypedRow;
    var fills := DecodeTable(b.fills, FILLS, lim);
    if fills.Err? { return Err(fills.error); }
    var equity := DecodeTable(b.equity, EQUITY, lim);
    if equity.Err? { return Err(equity.error); }
    var positions := DecodeTable(b.positions, POSITIONS, lim);
    if positions.Err? { return Err(positions.error); }
    var greeks := DecodeTable(b.greeks, GREEKS, lim);
    if greeks.Err? { return Err(greeks.error); }
    var t := Tables(fills.value, equity.value, positions.value, greeks.value);
    DecodedTyped(b.fills, FILLS, lim, t.fills);
    DecodedOnce(b, lim, t);
    var checked := CheckRows(b, t);
    if checked.Err? { return Err(checked.error); }
    SortCorrect(t.fills, FillKey);
    SortCorrect(t.positions, PositionKey);
    var sorted := SortTables(t);
    EquityStepsSmall(b, lim, t);
    ScansDecideStructure(t);
    var scanned := RunScans(sorted);
    if scanned.Err? { return Err(scanned.error); }
    assert Accepts(b, lim, t);
    return Ok(sorted);
  }

  lemma EquityStepsSmall(b: BundleFiles, lim: Limits, t: Tables)
    requires DecodedTables(b, lim, t)
    ensures forall i | 0 <= i < |t.equity| :: StepOf(t.equity[i]) <= I32_MAX
  {
    DecodedTyped(b.equity, EQUITY, lim, t.equity);
    forall i | 0 <= i < |t.equity| ensures StepOf(t.equity[i]) <= I32_MAX {
      assert RowCrosses(t.equity[i], EQUITY, lim);
      assert EQUITY[0].kind == U32;
    }
  }

  /** A file decodes to at most one table. */
  lemma DecodedOnce(b: BundleFiles, lim: Limits, t: Tables)
    requires DecodedTables(b, lim, t)
    ensures forall u :: DecodedTables(b, lim, u) ==> u == t
  {
    hide WidenAll, WithinCeilings, ValidSchema;
  }
}
