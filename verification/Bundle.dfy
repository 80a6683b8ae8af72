/**
 The result bundle end to end: what is written, and that it reads back
 (src/bundle/writer.rs, src/bundle/reader.rs).
 */
module Bundle {
  import opened Common
  import opened Sorting
  import opened Market
  import opened ContractId
  import opened Columns
  import opened Reader

  // ---- Row order and batch boundaries are invisible to the reader ---------

  ghost function WidenOr(schema: seq<Column>, lim: Limits): seq<Cell> -> Row
  {
    (cells: seq<Cell>) =>
      if |cells| == |schema| && WidenRow(cells, schema, lim).Ok? then WidenRow(cells, schema, lim).value else []
  }

  lemma {:induction false} WidenAllIsMap(cells: seq<seq<Cell>>, schema: seq<Column>, lim: Limits)
    requires forall i | 0 <= i < |cells| :: |cells[i]| == |schema|
    ensures WidenAll(cells, schema, lim).Ok? <==> forall i | 0 <= i < |cells| :: WidenRow(cells[i], schema, lim).Ok?
    ensures WidenAll(cells, schema, lim).Ok? ==> WidenAll(cells, schema, lim).value == Map(WidenOr(schema, lim), cells)
  {
    hide WidenRow;
    if cells != [] {
      var init := cells[..|cells| - 1];
      WidenAllIsMap(init, schema, lim);
      if WidenAll(cells, schema, lim).Ok? {
        var f := WidenOr(schema, lim);
        assert Map(f, cells) == Map(f, init) + [f(cells[|cells| - 1])];
      }
    }
  }

  /** The same rows, in any order and any batches. */
  ghost predicate SameRows(f: TableFile, g: TableFile, schema: seq<Column>)
  {
    && ValidSchema(f, schema) && ValidSchema(g, schema)
    && multiset(CellRows(f.batches, schema)) == multiset(CellRows(g.batches, schema))
  }

  lemma DecodeForgetsOrder(f: TableFile, g: TableFile, schema: seq<Column>, lim: Limits, rows: seq<Row>)
    returns (rows': seq<Row>)
    requires DecodesTo(f, schema, lim, rows) && SameRows(f, g, schema) && WithinCeilings(g, lim)
    ensures DecodesTo(g, schema, lim, rows') && multiset(rows') == multiset(rows) && |rows'| == |rows|
  {
    hide WidenRow, WithinCeilings;
    var c, d := CellRows(f.batches, schema), CellRows(g.batches, schema);
    WidenAllIsMap(c, schema, lim);
    WidenAllIsMap(d, schema, lim);
    forall i | 0 <= i < |d| ensures WidenRow(d[i], schema, lim).Ok? {
      ElementOf(d[i], d, c);
    }
    MapPermutation(WidenOr(schema, lim), c, d);
    rows' := WidenAll(d, schema, lim).value;
    assert |multiset(rows')| == |multiset(rows)|;
  }

  lemma FillChecksForgetOrder(s: seq<Row>, t: seq<Row>, runId: string)
    requires multiset(s) == multiset(t) && TypedTable(s, FILLS)
    requires forall i | 0 <= i < |s| :: VerifyFillId(IdentityOf(s[i])).Ok? && StrAt(s[i], 2) == runId
    ensures TypedTable(t, FILLS)
    ensures forall i | 0 <= i < |t| :: VerifyFillId(IdentityOf(t[i])).Ok? && StrAt(t[i], 2) == runId
  {
    hide TypedRow, VerifyFillId;
    forall i | 0 <= i < |t|
      ensures TypedRow(t[i], FILLS) && VerifyFillId(IdentityOf(t[i])).Ok? && StrAt(t[i], 2) == runId
    {
      ElementOf(t[i], t, s);
    }
  }

  lemma PositionChecksForgetOrder(s: seq<Row>, t: seq<Row>)
    requires multiset(s) == multiset(t) && forall i | 0 <= i < |s| :: VerifyPositionId(StrAt(s[i], 4)).Ok?
    ensures forall i | 0 <= i < |t| :: VerifyPositionId(StrAt(t[i], 4)).Ok?
  {
    hide VerifyPositionId;
    forall i | 0 <= i < |t| ensures VerifyPositionId(StrAt(t[i], 4)).Ok? {
      ElementOf(t[i], t, s);
    }
  }

  lemma StepsForgetOrder(s: seq<Row>, t: seq<Row>)
    requires multiset(s) == multiset(t) && |s| == |t| && StepsExactly(s)
    ensures StepsExactly(t) && Sort(s, StepKey) == Sort(t, StepKey)
  {
    DistinctSurvivesPermutation(s, t, StepKey);
    SortForgetsOrder(s, t, StepKey);
    forall i | 0 <= i < |t| ensures 0 <= StepOf(t[i]) < |t| {
      ElementOf(t[i], t, s);
    }
  }

  lemma StructureForgetsOrder(t: Tables, u: Tables)
    requires Structured(t)
    requires multiset(t.fills) == multiset(u.fills) && multiset(t.positions) == multiset(u.positions)
    requires multiset(t.equity) == multiset(u.equity) && multiset(t.greeks) == multiset(u.greeks)
    requires |t.equity| == |u.equity| && |t.greeks| == |u.greeks|
    ensures Structured(u) && SortTables(u) == SortTables(t)
  {
    hide Sort, StepOf, StepsExactly;
    DistinctSurvivesPermutation(t.fills, u.fills, FillKey);
    DistinctSurvivesPermutation(t.positions, u.positions, PositionKey);
    SortForgetsOrder(t.fills, u.fills, FillKey);
    SortForgetsOrder(t.positions, u.positions, PositionKey);
    StepsForgetOrder(t.equity, u.equity);
    StepsForgetOrder(t.greeks, u.greeks);
    BoundSurvives(t.fills, u.fills, |t.equity|);
    BoundSurvives(t.positions, u.positions, |t.equity|);
  }

  /**
   For every row order and every cut into row groups within the ceilings, the
   reader accepts the same bundles and returns the same result.
   */
  lemma ReaderForgetsLayout(b: BundleFiles, c: BundleFiles, lim: Limits, t: Tables) returns (u: Tables)
    requires Accepts(b, lim, t)
    requires c.runId == b.runId && c.counts == b.counts && c.inputMatches == b.inputMatches
    requires SameRows(b.fills, c.fills, FILLS) && WithinCeilings(c.fills, lim)
    requires SameRows(b.equity, c.equity, EQUITY) && WithinCeilings(c.equity, lim)
    requires SameRows(b.positions, c.positions, POSITIONS) && WithinCeilings(c.positions, lim)
    requires SameRows(b.greeks, c.greeks, GREEKS) && WithinCeilings(c.greeks, lim)
    ensures Accepts(c, lim, u) && SortTables(u) == SortTables(t)
  {
    hide DecodesTo, SameRows, WithinCeilings, TypedRow, VerifyFillId, VerifyPositionId, Structured, Sort;
    var fills := DecodeForgetsOrder(b.fills, c.fills, FILLS, lim, t.fills);
    var equity := DecodeForgetsOrder(b.equity, c.equity, EQUITY, lim, t.equity);
    var positions := DecodeForgetsOrder(b.positions, c.positions, POSITIONS, lim, t.positions);
    var greeks := DecodeForgetsOrder(b.greeks, c.greeks, GREEKS, lim, t.greeks);
    u := Tables(fills, equity, positions, greeks);
    StructureForgetsOrder(t, u);
    FillChecksForgetOrder(t.fills, fills, b.runId);
    PositionChecksForgetOrder(t.positions, positions);
  }

  // ---- What the collector hands the writer --------------------------------

  datatype Mode = Naive | Realistic
  datatype ExitReason =
    | TargetReached | StopLoss | Expiration | RollOver | ManualClose | MarginCall | Other(text: string)

  function SideStr(s: Side): string { if s.Long? then "long" else "short" }
  function ModeStr(m: Mode): string { if m.Naive? then "naive" else "realistic" }

  function ExitReasonStr(r: ExitReason): string
  {
    match r
    case TargetReached => "target_reached"
    case StopLoss => "stop_loss"
    case Expiration => "expiration"
    case RollOver => "roll_over"
    case ManualClose => "manual_close"
    case MarginCall => "margin_call"
    case Other(text) => text
  }

  datatype FillRecord = FillRecord(
    step: u32, ts: i64, tradeId: u64, positionId: u64, orderId: u64, fillSeq: u32, contract: ContractKey,
    side: Side, quantity: u32, price: u64, fees: i64, slippage: i64, mode: Mode)

  datatype PositionSnapshot = PositionSnapshot(
    step: u32, ts: i64, positionId: u64, tradeId: u64, contract: ContractKey, side: Side, quantity: u32,
    avgPrice: u64, mark: u64, unrealized: i64, staleMark: bool, exitReason: Option<ExitReason>, openAtEnd: bool)

  datatype EquityPoint = EquityPoint(step: u32, ts: i64, cash: i64, positionValue: i64, equity: i64, drawdown: Float)

  datatype GreeksRow = GreeksRow(
    step: u32, ts: i64, theta: i64, delta: i64, vega: i64, spreadCapture: i64, fees: i64, residual: i64)

  datatype Run = Run(
    fills: seq<FillRecord>, equity: seq<EquityPoint>, positions: seq<PositionSnapshot>, greeks: seq<GreeksRow>)

  /** `fill_row`. */
  function FillRow(f: FillRecord, runId: string): Result<Row, Error>
  {
    var expirationNs :- ExpirationNs(f.contract);
    var contractId :- ToContractId(f.contract);
    Ok([Int(f.step), Int(f.ts), Str(runId), Int(f.tradeId), Int(f.positionId), Int(f.orderId), Int(f.fillSeq),
        Str(f.contract.underlying), Int(expirationNs), Str(contractId), Int(f.contract.strike),
        Str(StyleStr(f.contract.style)), Str(SideStr(f.side)), Int(f.quantity), Int(f.price), Int(f.fees),
        Int(f.slippage), Str(ModeStr(f.mode))])
  }

  /** `position_row`. */
  function PositionRow(p: PositionSnapshot): Result<Row, Error>
  {
    var contractId :- ToContractId(p.contract);
    Ok([Int(p.step), Int(p.ts), Int(p.positionId), Int(p.tradeId), Str(contractId), Str(SideStr(p.side)),
        Int(p.quantity), Int(p.avgPrice), Int(p.mark), Int(p.unrealized), Value.Bool(p.staleMark),
        if p.exitReason.Some? then Str(ExitReasonStr(p.exitReason.value)) else Value.Absent, Value.Bool(p.openAtEnd)])
  }

  function EquityRow(p: EquityPoint): Row
  {
    [Int(p.step), Int(p.ts), Int(p.cash), Int(p.positionValue), Int(p.equity), Num(p.drawdown)]
  }

  function GreeksWireRow(g: GreeksRow): Row
  {
    [Int(g.step), Int(g.ts), Int(g.theta), Int(g.delta), Int(g.vega), Int(g.spreadCapture), Int(g.fees),
        Int(g.residual)]
  }

  lemma FillRowTyped(f: FillRecord, runId: string)
    requires FillRow(f, runId).Ok?
    ensures TypedRow(FillRow(f, runId).value, FILLS)
  {
    hide ToContractId;
  }

  lemma PositionRowTyped(p: PositionSnapshot)
    requires PositionRow(p).Ok?
    ensures TypedRow(PositionRow(p).value, POSITIONS)
  {
    hide ToContractId;
  }

  lemma PlainRowsTyped(p: EquityPoint, g: GreeksRow)
    ensures TypedRow(EquityRow(p), EQUITY) && TypedRow(GreeksWireRow(g), GREEKS)
  {
  }

  // ---- The writer ---------------------------------------------------------

  /** Every contract of the run resolves to an identifier. */
  ghost predicate Buildable(run: Run)
  {
    && (forall i | 0 <= i < |run.fills| :: ToContractId(run.fills[i].contract).Ok?)
    && (forall i | 0 <= i < |run.positions| :: ToContractId(run.positions[i].contract).Ok?)
  }

  /** The wire rows of the run, in collector order. */
  ghost function TablesOf(run: Run, runId: string): Tables
  {
    Tables(
      seq(|run.fills|, i requires 0 <= i < |run.fills| =>
        var r := FillRow(run.fills[i], runId); if r.Ok? then r.value else []),
      seq(|run.equity|, i requires 0 <= i < |run.equity| => EquityRow(run.equity[i])),
      seq(|run.positions|, i requires 0 <= i < |run.positions| =>
        var r := PositionRow(run.positions[i]); if r.Ok? then r.value else []),
      seq(|run.greeks|, i requires 0 <= i < |run.greeks| => GreeksWireRow(run.greeks[i])))
  }

  lemma FillRowBuilds(f: FillRecord, runId: string)
    ensures FillRow(f, runId).Ok? <==> ToContractId(f.contract).Ok?
  {
  }

  lemma TablesTyped(run: Run, runId: string)
    requires Buildable(run)
    ensures var t := TablesOf(run, runId);
            TypedTable(t.fills, FILLS) && TypedTable(t.equity, EQUITY) &&
            TypedTable(t.positions, POSITIONS) && TypedTable(t.greeks, GREEKS)
  {
    hide FillRow, EquityRow, GreeksWireRow, ToContractId, TypedRow;
    var t := TablesOf(run, runId);
    forall i | 0 <= i < |t.fills| ensures TypedRow(t.fills[i], FILLS) {
      FillRowBuilds(run.fills[i], runId);
      FillRowTyped(run.fills[i], runId);
    }
    forall i | 0 <= i < |t.positions| ensures TypedRow(t.positions[i], POSITIONS) {
      PositionRowTyped(run.positions[i]);
    }
    var none, noGreeks := EquityPoint(0, 0, 0, 0, 0, NotFinite), GreeksRow(0, 0, 0, 0, 0, 0, 0, 0);
    forall i | 0 <= i < |t.equity| ensures TypedRow(t.equity[i], EQUITY) {
      PlainRowsTyped(run.equity[i], noGreeks);
    }
    forall i | 0 <= i < |t.greeks| ensures TypedRow(t.greeks[i], GREEKS) {
      PlainRowsTyped(none, run.greeks[i]);
    }
  }

  lemma SortTyped(rows: seq<Row>, schema: seq<Column>, key: Row -> Key)
    requires TypedTable(rows, schema)
    ensures TypedTable(Sort(rows, key), schema)
  {
    hide TypedRow, Sort;
    SortCorrect(rows, key);
    forall i | 0 <= i < |Sort(rows, key)| ensures TypedRow(Sort(rows, key)[i], schema) {
      ElementOf(Sort(rows, key)[i], Sort(rows, key), rows);
    }
  }

  /** Every field of every row fits its signed wire type, and every ratio is finite. */
  ghost predicate AllFit(rows: seq<Row>, schema: seq<Column>)
  {
    TypedTable(rows, schema) && forall i | 0 <= i < |rows| :: NarrowRow(rows[i], schema).Ok?
  }

  lemma {:induction false} NarrowAllOk(rows: seq<Row>, schema: seq<Column>)
    requires TypedTable(rows, schema)
    ensures NarrowAll(rows, schema).Ok? <==> forall i | 0 <= i < |rows| :: NarrowRow(rows[i], schema).Ok?
    ensures NarrowAll(rows, schema).Ok? ==>
            var cells := NarrowAll(rows, schema).value;
            |cells| == |rows| && forall i | 0 <= i < |rows| :: NarrowRow(rows[i], schema) == Ok(cells[i])
  {
    hide NarrowRow, TypedRow;
    if rows != [] {
      NarrowAllOk(rows[..|rows| - 1], schema);
    }
  }

  lemma FitForgetsOrder(rows: seq<Row>, schema: seq<Column>, key: Row -> Key)
    requires TypedTable(rows, schema)
    ensures TypedTable(Sort(rows, key), schema)
    ensures NarrowAll(Sort(rows, key), schema).Ok? <==> AllFit(rows, schema)
  {
    hide NarrowRow, TypedRow, Sort, NarrowAll;
    var s := Sort(rows, key);
    SortTyped(rows, schema, key);
    SortCorrect(rows, key);
    NarrowAllOk(s, schema);
    if AllFit(rows, schema) {
      forall i | 0 <= i < |s| ensures NarrowRow(s[i], schema).Ok? { ElementOf(s[i], s, rows); }
    }
    if forall i | 0 <= i < |s| :: NarrowRow(s[i], schema).Ok? {
      forall i | 0 <= i < |rows| ensures NarrowRow(rows[i], schema).Ok? { ElementOf(rows[i], rows, s); }
    }
  }

  /** The table on disk is the sorted rows, narrowed. */
  ghost predicate TableWritten(f: TableFile, rows: seq<Row>, schema: seq<Column>, key: Row -> Key)
    requires TypedTable(Sort(rows, key), schema)
  {
    ValidSchema(f, schema) && NarrowAll(Sort(rows, key), schema) == Ok(CellRows(f.batches, schema))
  }

  ghost predicate Written(run: Run, runId: string, b: BundleFiles)
    requires Buildable(run)
  {
    TablesTyped(run, runId);
    var t := TablesOf(run, runId);
    SortTyped(t.fills, FILLS, FillKey);
    SortTyped(t.equity, EQUITY, StepKey);
    SortTyped(t.positions, POSITIONS, PositionKey);
    SortTyped(t.greeks, GREEKS, StepKey);
    && b.runId == runId && b.counts == Counts(|t.fills|, |t.equity|, |t.positions|, |t.greeks|)
    && TableWritten(b.fills, t.fills, FILLS, FillKey) && TableWritten(b.equity, t.equity, EQUITY, StepKey)
    && TableWritten(b.positions, t.positions, POSITIONS, PositionKey) &&
        TableWritten(b.greeks, t.greeks, GREEKS, StepKey)
  }

  /** Sort, then encode: the second half of every `encode_*`. */
  method EncodeSorted(rows: seq<Row>, schema: seq<Column>, key: Row -> Key) returns (r: Result<TableFile, Error>)
    requires TypedTable(rows, schema) && DistinctNames(Names(schema))
    ensures TypedTable(Sort(rows, key), schema)
    ensures r.Ok? <==> AllFit(rows, schema)
    ensures r.Ok? ==> TableWritten(r.value, rows, schema, key)
  {
    hide TypedRow, Sort, NarrowAll, Carries;
    FitForgetsOrder(rows, schema, key);
    var sorted := Sort(rows, key);
    var batches := EncodeTable(sorted, schema);
    if batches.Err? {
      return Err(batches.error);
    }
    OwnFieldsMatch(schema);
    return Ok(TableFile(FieldsOf(schema), |rows|, 0, batches.value));
  }

  method BuildFillRows(fills: seq<FillRecord>, runId: string) returns (r: Result<seq<Row>, Error>)
    ensures r.Ok? <==> forall i | 0 <= i < |fills| :: FillRow(fills[i], runId).Ok?
    ensures r.Ok? ==> |r.value| == |fills| && forall i | 0 <= i < |fills| :: FillRow(fills[i], runId) == Ok(r.value[i])
  {
    hide FillRow;
    var rows: seq<Row> := [];
    var i := 0;
    while i < |fills|
      invariant 0 <= i <= |fills| && |rows| == i
      invariant forall k | 0 <= k < i :: FillRow(fills[k], runId) == Ok(rows[k])
    {
      var row := FillRow(fills[i], runId);
      if row.Err? {
        return Err(row.error);
      }
      rows := rows + [row.value];
      i := i + 1;
    }
    return Ok(rows);
  }

  method BuildPositionRows(positions: seq<PositionSnapshot>) returns (r: Result<seq<Row>, Error>)
    ensures r.Ok? <==> forall i | 0 <= i < |positions| :: PositionRow(positions[i]).Ok?
    ensures r.Ok? ==> |r.value| == |positions| && forall i | 0 <= i < |positions| ::
            PositionRow(positions[i]) == Ok(r.value[i])
  {
    hide PositionRow;
    var rows: seq<Row> := [];
    var i := 0;
    while i < |positions|
      invariant 0 <= i <= |positions| && |rows| == i
      invariant forall k | 0 <= k < i :: PositionRow(positions[k]) == Ok(rows[k])
    {
      var row := PositionRow(positions[i]);
      if row.Err? {
        return Err(row.error);
      }
      rows := rows + [row.value];
      i := i + 1;
    }
    return Ok(rows);
  }

  /** The run can be written: contracts resolve and every value fits its wire type. */
  ghost predicate Writable(run: Run, runId: string)
  {
    && Buildable(run)
    && var t := TablesOf(run, runId);
       AllFit(t.fills, FILLS) && AllFit(t.equity, EQUITY) && AllFit(t.positions, POSITIONS) && AllFit(t.greeks, GREEKS)
  }

  /** The four tables of `build_into`; any value that does not fit is an error. */
  method WriteTables(run: Run, runId: string) returns (r: Result<BundleFiles, Error>)
    ensures r.Ok? <==> Writable(run, runId)
    ensures r.Ok? ==> Written(run, runId, r.value) && r.value.inputMatches
  {
    hide FillRow, PositionRow, EquityRow, GreeksWireRow, ToContractId, TypedTable, AllFit, TableWritten, Sort;
    ghost var t := TablesOf(run, runId);
    var fillRows := BuildFillRows(run.fills, runId);
    assert fillRows.Ok? <==> forall i | 0 <= i < |run.fills| :: ToContractId(run.fills[i].contract).Ok? by {
      forall i | 0 <= i < |run.fills|
        ensures FillRow(run.fills[i], runId).Ok? <==> ToContractId(run.fills[i].contract).Ok?
      {
        FillRowBuilds(run.fills[i], runId);
      }
    }
    if fillRows.Err? { return Err(fillRows.error); }
    var positionRows := BuildPositionRows(run.positions);
    assert positionRows.Ok? <==> forall i | 0 <= i < |run.positions| :: ToContractId(run.positions[i].contract).Ok? by {
      forall i | 0 <= i < |run.positions|
        ensures PositionRow(run.positions[i]).Ok? <==> ToContractId(run.positions[i].contract).Ok?
      {
        PositionRowBuilds(run.positions[i]);
      }
    }
    if positionRows.Err? { return Err(positionRows.error); }
    var equityRows := Map(EquityRow, run.equity);
    var greeksRows := Map(GreeksWireRow, run.greeks);
    assert Tables(fillRows.value, equityRows, positionRows.value, greeksRows) == t;
    TablesTyped(run, runId);
    FillNamesDistinct();
    EquityNamesDistinct();
    PositionNamesDistinct();
    GreeksNamesDistinct();
    var fills := EncodeSorted(fillRows.value, FILLS, FillKey);
    if fills.Err? { return Err(fills.error); }
    var equity := EncodeSorted(equityRows, EQUITY, StepKey);
    if equity.Err? { return Err(equity.error); }
    var positions := EncodeSorted(positionRows.value, POSITIONS, PositionKey);
    if positions.Err? { return Err(positions.error); }
    var greeks := EncodeSorted(greeksRows, GREEKS, StepKey);
    if greeks.Err? { return Err(greeks.error); }
    var counts := Counts(|fillRows.value|, |equityRows|, |positionRows.value|, |greeksRows|);
    return Ok(BundleFiles(runId, counts, true, fills.value, equity.value, positions.value, greeks.value));
  }

  lemma PositionRowBuilds(p: PositionSnapshot)
    ensures PositionRow(p).Ok? <==> ToContractId(p.contract).Ok?
  {
  }

  // ---- Writing then reading -----------------------------------------------

  ghost predicate AllCross(rows: seq<Row>, schema: seq<Column>, lim: Limits)
  {
    forall i | 0 <= i < |rows| :: RowCrosses(rows[i], schema, lim)
  }

  lemma AllCrossSnoc(rows: seq<Row>, schema: seq<Column>, lim: Limits)
    ensures rows == [] ==> AllCross(rows, schema, lim)
    ensures rows != [] ==> (AllCross(rows, schema, lim) <==>
              AllCross(rows[..|rows| - 1], schema, lim) && RowCrosses(rows[|rows| - 1], schema, lim))
  {
    hide RowCrosses;
    if rows != [] {
      assert rows == rows[..|rows| - 1] + [rows[|rows| - 1]];
    }
  }

  /** A written table decodes exactly when its rows cross, and then to its sorted rows. */
  lemma {:induction false} NarrowThenWiden(rows: seq<Row>, schema: seq<Column>, lim: Limits)
    requires TypedTable(rows, schema) && NarrowAll(rows, schema).Ok?
    ensures forall i | 0 <= i < |NarrowAll(rows, schema).value| :: |NarrowAll(rows, schema).value[i]| == |schema|
    ensures WidenAll(NarrowAll(rows, schema).value, schema, lim).Ok? <==> AllCross(rows, schema, lim)
    ensures WidenAll(NarrowAll(rows, schema).value, schema, lim).Ok? ==>
            WidenAll(NarrowAll(rows, schema).value, schema, lim).value == rows
  {
    hide NarrowRow, WidenRow, TypedRow, RowCrosses, AllCross, WidenAll;
    AllCrossSnoc(rows, schema, lim);
    if rows == [] {
      WidenNone(schema, lim);
    } else {
      var init, last := rows[..|rows| - 1], rows[|rows| - 1];
      NarrowThenWiden(init, schema, lim);
      RowRoundTrip(last, schema, lim);
      var cells, c := NarrowAll(init, schema).value, NarrowRow(last, schema).value;
      assert NarrowAll(rows, schema).value == cells + [c] && rows == init + [last];
      if WidenAll(cells, schema, lim).Ok? {
        WidenSnoc(cells, c, schema, lim);
      } else {
        assert (cells + [c])[..|cells|] == cells;
        WidenErrorStays(cells + [c], schema, lim, |cells|);
      }
    }
  }

  lemma TableRoundTrip(f: TableFile, rows: seq<Row>, schema: seq<Column>, key: Row -> Key, lim: Limits, t: seq<Row>)
    requires TypedTable(rows, schema) && TypedTable(Sort(rows, key), schema)
    requires TableWritten(f, rows, schema, key) && WithinCeilings(f, lim)
    ensures DecodesTo(f, schema, lim, t) <==> AllCross(rows, schema, lim) && t == Sort(rows, key)
  {
    hide TypedRow, RowCrosses, Sort, NarrowAll, WidenAll, WithinCeilings;
    var s := Sort(rows, key);
    SortCorrect(rows, key);
    NarrowThenWiden(s, schema, lim);
    if AllCross(rows, schema, lim) {
      forall i | 0 <= i < |s| ensures RowCrosses(s[i], schema, lim) { ElementOf(s[i], s, rows); }
    }
    if AllCross(s, schema, lim) {
      forall i | 0 <= i < |rows| ensures RowCrosses(rows[i], schema, lim) { ElementOf(rows[i], rows, s); }
    }
  }

  /** A run is well formed for reading: every field crosses, keys distinct, steps exact and in range. */
  ghost predicate WellFormed(run: Run, runId: string, lim: Limits)
  {
    var t := TablesOf(run, runId);
    && AllCross(t.fills, FILLS, lim) && AllCross(t.equity, EQUITY, lim)
    && AllCross(t.positions, POSITIONS, lim) && AllCross(t.greeks, GREEKS, lim)
    && Structured(t)
  }

  /** Tickers satisfy the grammar wherever a contract is built. */
  ghost predicate TickersValid(run: Run)
  {
    && (forall i | 0 <= i < |run.fills| :: ValidTicker(run.fills[i].contract.underlying))
    && (forall i | 0 <= i < |run.positions| :: ValidTicker(run.positions[i].contract.underlying))
  }

  lemma BuiltFillPasses(f: FillRecord, runId: string)
    requires FillRow(f, runId).Ok? && ValidTicker(f.contract.underlying)
    ensures var row := FillRow(f, runId).value;
            TypedRow(row, FILLS) && VerifyFillId(IdentityOf(row)).Ok? && StrAt(row, 2) == runId
  {
    hide VerifyFillId, ToContractId;
    FillRowTyped(f, runId);
    var row := FillRow(f, runId).value;
    FillIdAccepted(IdentityOf(row));
    assert f.contract.expiration == DateTime(ExpirationNs(f.contract).value);
  }

  lemma PrintableIsResolved(k: ContractKey)
    requires ToContractId(k).Ok? && ValidTicker(k.underlying)
    ensures Resolved(k)
  {
  }

  lemma BuiltPositionPasses(p: PositionSnapshot)
    requires PositionRow(p).Ok? && ValidTicker(p.contract.underlying)
    ensures VerifyPositionId(StrAt(PositionRow(p).value, 4)).Ok?
  {
    hide VerifyPositionId, ToContractId;
    PrintableIsResolved(p.contract);
    PositionIdAccepted(StrAt(PositionRow(p).value, 4));
  }

  /** What the writer builds passes every per-row check of the reader. */
  lemma BuiltRowsPass(run: Run, runId: string, b: BundleFiles)
    requires Buildable(run) && TickersValid(run) && b.runId == runId && b.inputMatches
    requires var t := TablesOf(run, runId); b.counts == Counts(|t.fills|, |t.equity|, |t.positions|, |t.greeks|)
    ensures var s := SortTables(TablesOf(run, runId)); TypedTable(s.fills, FILLS) && RowChecks(b, s)
  {
    hide FillRow, PositionRow, EquityRow, GreeksWireRow, ToContractId, TypedRow, Sort, VerifyFillId, VerifyPositionId;
    var t := TablesOf(run, runId);
    var s := SortTables(t);
    TablesTyped(run, runId);
    SortCorrect(t.fills, FillKey);
    SortCorrect(t.equity, StepKey);
    SortCorrect(t.positions, PositionKey);
    SortCorrect(t.greeks, StepKey);
    forall i | 0 <= i < |t.fills| ensures VerifyFillId(IdentityOf(t.fills[i])).Ok? && StrAt(t.fills[i], 2) == runId {
      FillRowBuilds(run.fills[i], runId);
      BuiltFillPasses(run.fills[i], runId);
    }
    forall i | 0 <= i < |t.positions| ensures VerifyPositionId(StrAt(t.positions[i], 4)).Ok? {
      PositionRowBuilds(run.positions[i]);
      BuiltPositionPasses(run.positions[i]);
    }
    FillChecksForgetOrder(t.fills, s.fills, runId);
    PositionChecksForgetOrder(t.positions, s.positions);
  }

  /**
   Reading what was written succeeds exactly for well-formed runs, and returns
   exactly the wire rows in sort-key order. Negative fees, which the writer
   lets through, are among what the reader refuses.
   */
  lemma WriteThenRead(run: Run, runId: string, b: BundleFiles, lim: Limits, t: Tables)
    requires Buildable(run) && TickersValid(run) && Written(run, runId, b) && b.inputMatches
    requires WithinCeilings(b.fills, lim) && WithinCeilings(b.equity, lim)
    requires WithinCeilings(b.positions, lim) && WithinCeilings(b.greeks, lim)
    ensures Accepts(b, lim, t) <==> WellFormed(run, runId, lim) && t == SortTables(TablesOf(run, runId))
    ensures Accepts(b, lim, t) ==> SortTables(t) == t
  {
    hide FillRow, PositionRow, EquityRow, GreeksWireRow, ToContractId, TypedTable, TableWritten, AllCross,
         DecodesTo, WithinCeilings, Structured, RowChecks, Sort;
    var raw := TablesOf(run, runId);
    var s := SortTables(raw);
    TablesTyped(run, runId);
    SortTyped(raw.fills, FILLS, FillKey);
    SortTyped(raw.equity, EQUITY, StepKey);
    SortTyped(raw.positions, POSITIONS, PositionKey);
    SortTyped(raw.greeks, GREEKS, StepKey);
    TableRoundTrip(b.fills, raw.fills, FILLS, FillKey, lim, t.fills);
    TableRoundTrip(b.equity, raw.equity, EQUITY, StepKey, lim, t.equity);
    TableRoundTrip(b.positions, raw.positions, POSITIONS, PositionKey, lim, t.positions);
    TableRoundTrip(b.greeks, raw.greeks, GREEKS, StepKey, lim, t.greeks);
    BuiltRowsPass(run, runId, b);
    SortCorrect(raw.fills, FillKey);
    SortCorrect(raw.equity, StepKey);
    SortCorrect(raw.positions, PositionKey);
    SortCorrect(raw.greeks, StepKey);
    if Structured(raw) { StructureForgetsOrder(raw, s); }
    if Structured(s) { StructureForgetsOrder(s, raw); }
  }

  // ---- What is read back, by column name ----------------------------------

  /** The row has the value under the name. */
  ghost predicate Says(row: Row, schema: seq<Column>, name: string, v: Value)
  {
    |row| == |schema| && exists j :: 0 <= j < |schema| && schema[j].name == name && row[j] == v
  }

  lemma SaysAt(row: Row, schema: seq<Column>, j: nat)
    requires |row| == |schema| && j < |schema|
    ensures Says(row, schema, schema[j].name, row[j])
  {
  }

  lemma SaysOnly(row: Row, schema: seq<Column>, j: nat, v: Value)
    requires DistinctNames(Names(schema)) && j < |schema| && Says(row, schema, schema[j].name, v)
    ensures row[j] == v
  {
    var i :| 0 <= i < |schema| && schema[i].name == schema[j].name && row[i] == v;
    assert Names(schema)[i] == Names(schema)[j];
  }

  /** The row of `fills.parquet` that reports the fill. */
  ghost predicate ReportsFill(f: FillRecord, runId: string, row: Row)
  {
    && Says(row, FILLS, "step", Int(f.step)) && Says(row, FILLS, "ts_ns", Int(f.ts))
    && Says(row, FILLS, "strategy_run_id", Str(runId)) && Says(row, FILLS, "trade_id", Int(f.tradeId))
    && Says(row, FILLS, "position_id", Int(f.positionId)) && Says(row, FILLS, "order_id", Int(f.orderId))
    && Says(row, FILLS, "fill_seq", Int(f.fillSeq)) && Says(row, FILLS, "underlying", Str(f.contract.underlying))
    && f.contract.expiration.DateTime? && Says(row, FILLS, "expiration_ns", Int(f.contract.expiration.ns))
    && (exists id :: Says(row, FILLS, "contract_id", Str(id)) && FromContractId(id) == Ok(f.contract))
    && Says(row, FILLS, "strike_cents", Int(f.contract.strike))
    && Says(row, FILLS, "style", Str(if f.contract.style.Call? then "call" else "put"))
    && Says(row, FILLS, "side", Str(if f.side.Long? then "long" else "short"))
    && Says(row, FILLS, "quantity", Int(f.quantity)) && Says(row, FILLS, "price_cents", Int(f.price))
    && Says(row, FILLS, "fees_cents", Int(f.fees)) && Says(row, FILLS, "slippage_cents", Int(f.slippage))
    && Says(row, FILLS, "mode", Str(if f.mode.Naive? then "naive" else "realistic"))
  }

  /** The cell of an exit reason: null for none, a word for each of the known ones, any other as it is. */
  predicate ExitCell(r: Option<ExitReason>, v: Value)
  {
    match r
    case None => v.Absent?
    case Some(TargetReached) => v == Str("target_reached")
    case Some(StopLoss) => v == Str("stop_loss")
    case Some(Expiration) => v == Str("expiration")
    case Some(RollOver) => v == Str("roll_over")
    case Some(ManualClose) => v == Str("manual_close")
    case Some(MarginCall) => v == Str("margin_call")
    case Some(Other(text)) => v == Str(text)
  }

  ghost predicate ReportsPosition(p: PositionSnapshot, row: Row)
  {
    && Says(row, POSITIONS, "step", Int(p.step)) && Says(row, POSITIONS, "ts_ns", Int(p.ts))
    && Says(row, POSITIONS, "position_id", Int(p.positionId)) && Says(row, POSITIONS, "trade_id", Int(p.tradeId))
    && (exists id :: Says(row, POSITIONS, "contract_id", Str(id)) && FromContractId(id) == Ok(p.contract))
    && Says(row, POSITIONS, "side", Str(if p.side.Long? then "long" else "short"))
    && Says(row, POSITIONS, "quantity", Int(p.quantity)) && Says(row, POSITIONS, "avg_price_cents", Int(p.avgPrice))
    && Says(row, POSITIONS, "mark_cents", Int(p.mark)) && Says(row, POSITIONS, "unrealized_cents", Int(p.unrealized))
    && Says(row, POSITIONS, "stale_mark", Value.Bool(p.staleMark))
    && (exists v :: Says(row, POSITIONS, "exit_reason", v) && ExitCell(p.exitReason, v))
    && Says(row, POSITIONS, "open_at_end", Value.Bool(p.openAtEnd))
  }

  ghost predicate ReportsEquity(p: EquityPoint, row: Row)
  {
    && Says(row, EQUITY, "step", Int(p.step)) && Says(row, EQUITY, "ts_ns", Int(p.ts))
    && Says(row, EQUITY, "cash_cents", Int(p.cash)) && Says(row, EQUITY, "position_value_cents", Int(p.positionValue))
    && Says(row, EQUITY, "equity_cents", Int(p.equity)) && Says(row, EQUITY, "drawdown", Num(p.drawdown))
  }

  ghost predicate ReportsGreeks(g: GreeksRow, row: Row)
  {
    && Says(row, GREEKS, "step", Int(g.step)) && Says(row, GREEKS, "ts_ns", Int(g.ts))
    && Says(row, GREEKS, "theta_pnl_cents", Int(g.theta)) && Says(row, GREEKS, "delta_pnl_cents", Int(g.delta))
    && Says(row, GREEKS, "vega_pnl_cents", Int(g.vega))
    && Says(row, GREEKS, "spread_capture_cents", Int(g.spreadCapture))
    && Says(row, GREEKS, "fees_cents", Int(g.fees)) && Says(row, GREEKS, "residual_cents", Int(g.residual))
  }

  lemma FillReported(f: FillRecord, runId: string)
    requires FillRow(f, runId).Ok? && ValidTicker(f.contract.underlying)
    ensures ReportsFill(f, runId, FillRow(f, runId).value)
  {
    hide ToContractId, FromContractId, Says;
    var row := FillRow(f, runId).value;
    forall j | 0 <= j < 18 ensures Says(row, FILLS, FILLS[j].name, row[j]) { SaysAt(row, FILLS, j); }
    PrintableIsResolved(f.contract);
    PrintThenParse(f.contract);
    assert FILLS[0].name == "step" && FILLS[1].name == "ts_ns" && FILLS[2].name == "strategy_run_id";
    assert FILLS[3].name == "trade_id" && FILLS[4].name == "position_id" && FILLS[5].name == "order_id";
    assert FILLS[6].name == "fill_seq" && FILLS[7].name == "underlying" && FILLS[8].name == "expiration_ns";
    assert FILLS[9].name == "contract_id" && FILLS[10].name == "strike_cents" && FILLS[11].name == "style";
    assert FILLS[12].name == "side" && FILLS[13].name == "quantity" && FILLS[14].name == "price_cents";
    assert FILLS[15].name == "fees_cents" && FILLS[16].name == "slippage_cents" && FILLS[17].name == "mode";
  }

  lemma PositionReported(p: PositionSnapshot)
    requires PositionRow(p).Ok? && ValidTicker(p.contract.underlying)
    ensures ReportsPosition(p, PositionRow(p).value)
  {
    hide ToContractId, FromContractId, Says;
    var row := PositionRow(p).value;
    forall j | 0 <= j < 13 ensures Says(row, POSITIONS, POSITIONS[j].name, row[j]) { SaysAt(row, POSITIONS, j); }
    PrintableIsResolved(p.contract);
    PrintThenParse(p.contract);
    assert POSITIONS[0].name == "step" && POSITIONS[1].name == "ts_ns" && POSITIONS[2].name == "position_id";
    assert POSITIONS[3].name == "trade_id" && POSITIONS[4].name == "contract_id" && POSITIONS[5].name == "side";
    assert POSITIONS[6].name == "quantity" && POSITIONS[7].name == "avg_price_cents";
    assert POSITIONS[8].name == "mark_cents" && POSITIONS[9].name == "unrealized_cents";
    assert POSITIONS[10].name == "stale_mark" && POSITIONS[11].name == "exit_reason";
    assert POSITIONS[12].name == "open_at_end";
  }

  lemma EquityReported(p: EquityPoint)
    ensures ReportsEquity(p, EquityRow(p))
  {
    hide Says;
    var row := EquityRow(p);
    forall j | 0 <= j < 6 ensures Says(row, EQUITY, EQUITY[j].name, row[j]) { SaysAt(row, EQUITY, j); }
    assert EQUITY[0].name == "step" && EQUITY[1].name == "ts_ns" && EQUITY[2].name == "cash_cents";
    assert EQUITY[3].name == "position_value_cents" && EQUITY[4].name == "equity_cents";
    assert EQUITY[5].name == "drawdown";
  }

  lemma GreeksReported(g: GreeksRow)
    ensures ReportsGreeks(g, GreeksWireRow(g))
  {
    hide Says;
    var row := GreeksWireRow(g);
    forall j | 0 <= j < 8 ensures Says(row, GREEKS, GREEKS[j].name, row[j]) { SaysAt(row, GREEKS, j); }
    assert GREEKS[0].name == "step" && GREEKS[1].name == "ts_ns" && GREEKS[2].name == "theta_pnl_cents";
    assert GREEKS[3].name == "delta_pnl_cents" && GREEKS[4].name == "vega_pnl_cents";
    assert GREEKS[5].name == "spread_capture_cents" && GREEKS[6].name == "fees_cents";
    assert GREEKS[7].name == "residual_cents";
  }

  ghost predicate HasRow<T(!new)>(rows: seq<Row>, record: T, reports: (T, Row) -> bool)
  {
    exists k :: 0 <= k < |rows| && reports(record, rows[k])
  }

  ghost predicate HasRecord<T(!new)>(row: Row, records: seq<T>, reports: (T, Row) -> bool)
  {
    exists i :: 0 <= i < |records| && reports(records[i], row)
  }

  /** One row for every record, and no other rows. */
  ghost predicate OneRowEach<T(!new)>(rows: seq<Row>, records: seq<T>, reports: (T, Row) -> bool)
  {
    && |rows| == |records|
    && (forall i | 0 <= i < |records| :: HasRow(rows, records[i], reports))
    && (forall k | 0 <= k < |rows| :: HasRecord(rows[k], records, reports))
  }

  /** The named key of a fill row: its step, its order, and the number of the fill of that order. */
  ghost predicate FillIs(row: Row, step: int, order: int, fill: int)
  {
    && Says(row, FILLS, "step", Int(step)) && Says(row, FILLS, "order_id", Int(order))
    && Says(row, FILLS, "fill_seq", Int(fill))
  }

  /** The second row has the greater step, or the greater order at one step, or the greater fill of one order. */
  ghost predicate FillBefore(a: Row, b: Row)
  {
    forall s, t, o, p, m, n | FillIs(a, s, o, m) && FillIs(b, t, p, n) ::
      s < t || (s == t && (o < p || (o == p && m < n)))
  }

  ghost predicate FillsInOrder(rows: seq<Row>)
  {
    forall k, l | 0 <= k < l < |rows| :: FillBefore(rows[k], rows[l])
  }

  ghost predicate PositionIs(row: Row, step: int, position: int)
  {
    Says(row, POSITIONS, "step", Int(step)) && Says(row, POSITIONS, "position_id", Int(position))
  }

  /** The second row has the greater step, or the greater position at one step. */
  ghost predicate PositionBefore(a: Row, b: Row)
  {
    forall s, t, o, p | PositionIs(a, s, o) && PositionIs(b, t, p) :: s < t || (s == t && o < p)
  }

  ghost predicate PositionsInOrder(rows: seq<Row>)
  {
    forall k, l | 0 <= k < l < |rows| :: PositionBefore(rows[k], rows[l])
  }

  /** Row `k` is the one of step `k`. */
  ghost predicate StepsInOrder(rows: seq<Row>, schema: seq<Column>)
  {
    forall k | 0 <= k < |rows| :: Says(rows[k], schema, "step", Int(k))
  }

  lemma RowsOf<T(!new)>(rows: seq<Row>, sorted: seq<Row>, records: seq<T>, reports: (T, Row) -> bool)
    requires |rows| == |records| && multiset(rows) == multiset(sorted)
    requires forall i | 0 <= i < |records| :: reports(records[i], rows[i])
    ensures OneRowEach(sorted, records, reports)
  {
    assert |multiset(rows)| == |multiset(sorted)|;
    forall i | 0 <= i < |records| ensures HasRow(sorted, records[i], reports) {
      assert rows[i] in multiset(rows);
      var k := PositionOf(rows[i], sorted);
      assert reports(records[i], sorted[k]);
    }
    forall k | 0 <= k < |sorted| ensures HasRecord(sorted[k], records, reports) {
      assert sorted[k] in multiset(sorted);
      var i := PositionOf(sorted[k], rows);
      assert reports(records[i], sorted[k]);
    }
  }

  /** What a fill row says under the names of its key is its sort key. */
  lemma FillKeySaid(row: Row, s: int, o: int, m: int)
    requires FillIs(row, s, o, m)
    ensures FillKey(row) == [s, o, m]
  {
    hide Says;
    FillNamesDistinct();
    assert FILLS[0].name == "step" && FILLS[5].name == "order_id" && FILLS[6].name == "fill_seq";
    SaysOnly(row, FILLS, 0, Int(s));
    SaysOnly(row, FILLS, 5, Int(o));
    SaysOnly(row, FILLS, 6, Int(m));
    SaysWhole(row, FILLS, "step", Int(s));
  }

  lemma SaysWhole(row: Row, schema: seq<Column>, name: string, v: Value)
    requires Says(row, schema, name, v)
    ensures |row| == |schema|
  {
  }

  lemma FillPair(a: Row, b: Row)
    requires Less(FillKey(a), FillKey(b))
    ensures FillBefore(a, b)
  {
    hide FillIs, Less, FillKey;
    forall s, t, o, p, m, n | FillIs(a, s, o, m) && FillIs(b, t, p, n)
      ensures s < t || (s == t && (o < p || (o == p && m < n)))
    {
      FillKeySaid(a, s, o, m);
      FillKeySaid(b, t, p, n);
      LessThree([s, o, m], [t, p, n]);
    }
  }

  lemma LessThree(a: Key, b: Key)
    requires |a| == |b| == 3
    ensures Less(a, b) <==> a[0] < b[0] || (a[0] == b[0] && (a[1] < b[1] || (a[1] == b[1] && a[2] < b[2])))
  {
    assert a[1..][1..] == a[2..] && b[1..][1..] == b[2..] && a[2..][1..] == [] && b[2..][1..] == [];
    assert Less(a[2..], b[2..]) <==> a[2] < b[2];
    assert Less(a[1..], b[1..]) <==> a[1] < b[1] || (a[1] == b[1] && Less(a[2..], b[2..]));
  }

  lemma PositionKeySaid(row: Row, s: int, o: int)
    requires PositionIs(row, s, o)
    ensures PositionKey(row) == [s, o]
  {
    hide Says;
    PositionNamesDistinct();
    assert POSITIONS[0].name == "step" && POSITIONS[2].name == "position_id";
    SaysOnly(row, POSITIONS, 0, Int(s));
    SaysOnly(row, POSITIONS, 2, Int(o));
    SaysWhole(row, POSITIONS, "step", Int(s));
  }

  lemma PositionPair(a: Row, b: Row)
    requires Less(PositionKey(a), PositionKey(b))
    ensures PositionBefore(a, b)
  {
    hide PositionIs, Less, PositionKey;
    forall s, t, o, p | PositionIs(a, s, o) && PositionIs(b, t, p) ensures s < t || (s == t && o < p) {
      PositionKeySaid(a, s, o);
      PositionKeySaid(b, t, p);
      LessTwo([s, o], [t, p]);
    }
  }

  lemma LessTwo(a: Key, b: Key)
    requires |a| == |b| == 2
    ensures Less(a, b) <==> a[0] < b[0] || (a[0] == b[0] && a[1] < b[1])
  {
    assert a[1..][1..] == [] && b[1..][1..] == [];
    assert Less(a[1..], b[1..]) <==> a[1] < b[1];
  }

  lemma StepsOrdered(rows: seq<Row>, schema: seq<Column>)
    requires schema != [] && schema[0] == Column("step", U32) && TypedTable(rows, schema)
    requires forall k | 0 <= k < |rows| :: StepOf(rows[k]) == k
    ensures StepsInOrder(rows, schema)
  {
    hide Says;
    forall k | 0 <= k < |rows| ensures Says(rows[k], schema, "step", Int(k)) {
      assert Typed(rows[k][0], schema[0].kind) && rows[k][0] == Int(k);
      SaysAt(rows[k], schema, 0);
    }
  }

  lemma FillsBack(run: Run, runId: string, rows: seq<Row>)
    requires Buildable(run) && TickersValid(run) && rows == Sort(TablesOf(run, runId).fills, FillKey)
    requires DistinctKeys(TablesOf(run, runId).fills, FillKey)
    ensures OneRowEach(rows, run.fills, (f: FillRecord, row: Row) => ReportsFill(f, runId, row))
    ensures FillsInOrder(rows)
  {
    hide FillRow, PositionRow, ToContractId, TypedRow, Sort, ReportsFill, OneRowEach, FillBefore;
    var raw := TablesOf(run, runId).fills;
    TablesTyped(run, runId);
    SortTyped(raw, FILLS, FillKey);
    SortCorrect(raw, FillKey);
    DistinctIffStrict(raw, FillKey);
    forall k, l | 0 <= k < l < |rows| ensures FillBefore(rows[k], rows[l]) { FillPair(rows[k], rows[l]); }
    var reports := (f: FillRecord, row: Row) => ReportsFill(f, runId, row);
    forall i | 0 <= i < |run.fills| ensures reports(run.fills[i], raw[i]) {
      FillRowBuilds(run.fills[i], runId);
      FillReported(run.fills[i], runId);
    }
    RowsOf(raw, rows, run.fills, reports);
  }

  lemma PositionsBack(run: Run, runId: string, rows: seq<Row>)
    requires Buildable(run) && TickersValid(run) && rows == Sort(TablesOf(run, runId).positions, PositionKey)
    requires DistinctKeys(TablesOf(run, runId).positions, PositionKey)
    ensures OneRowEach(rows, run.positions, (p: PositionSnapshot, row: Row) => ReportsPosition(p, row))
    ensures PositionsInOrder(rows)
  {
    hide FillRow, PositionRow, ToContractId, TypedRow, Sort, ReportsPosition, OneRowEach, PositionBefore;
    var raw := TablesOf(run, runId).positions;
    TablesTyped(run, runId);
    SortTyped(raw, POSITIONS, PositionKey);
    SortCorrect(raw, PositionKey);
    DistinctIffStrict(raw, PositionKey);
    forall k, l | 0 <= k < l < |rows| ensures PositionBefore(rows[k], rows[l]) { PositionPair(rows[k], rows[l]); }
    var reports := (p: PositionSnapshot, row: Row) => ReportsPosition(p, row);
    forall i | 0 <= i < |run.positions| ensures reports(run.positions[i], raw[i]) {
      PositionRowBuilds(run.positions[i]);
      PositionReported(run.positions[i]);
    }
    RowsOf(raw, rows, run.positions, reports);
  }

  lemma EquityBack(run: Run, runId: string, rows: seq<Row>)
    requires Buildable(run) && rows == Sort(TablesOf(run, runId).equity, StepKey)
    requires StepsExactly(TablesOf(run, runId).equity)
    ensures OneRowEach(rows, run.equity, (p: EquityPoint, row: Row) => ReportsEquity(p, row))
    ensures StepsInOrder(rows, EQUITY)
  {
    hide FillRow, PositionRow, EquityRow, ToContractId, TypedRow, Sort, ReportsEquity, OneRowEach, StepsInOrder;
    var raw := TablesOf(run, runId).equity;
    TablesTyped(run, runId);
    SortTyped(raw, EQUITY, StepKey);
    SortCorrect(raw, StepKey);
    ContiguousIffExact(raw);
    StepsOrdered(rows, EQUITY);
    var reports := (p: EquityPoint, row: Row) => ReportsEquity(p, row);
    forall i | 0 <= i < |run.equity| ensures reports(run.equity[i], raw[i]) {
      EquityReported(run.equity[i]);
    }
    RowsOf(raw, rows, run.equity, reports);
  }

  lemma GreeksBack(run: Run, runId: string, rows: seq<Row>)
    requires Buildable(run) && rows == Sort(TablesOf(run, runId).greeks, StepKey)
    requires StepsExactly(TablesOf(run, runId).greeks)
    ensures OneRowEach(rows, run.greeks, (g: GreeksRow, row: Row) => ReportsGreeks(g, row))
    ensures StepsInOrder(rows, GREEKS)
  {
    hide FillRow, PositionRow, GreeksWireRow, ToContractId, TypedRow, Sort, ReportsGreeks, OneRowEach, StepsInOrder;
    var raw := TablesOf(run, runId).greeks;
    TablesTyped(run, runId);
    SortTyped(raw, GREEKS, StepKey);
    SortCorrect(raw, StepKey);
    ContiguousIffExact(raw);
    StepsOrdered(rows, GREEKS);
    var reports := (g: GreeksRow, row: Row) => ReportsGreeks(g, row);
    forall i | 0 <= i < |run.greeks| ensures reports(run.greeks[i], raw[i]) {
      GreeksReported(run.greeks[i]);
    }
    RowsOf(raw, rows, run.greeks, reports);
  }

  /**
   What comes back from a run that was written and is accepted: one row for every
   record, saying under every column name what the record holds, in the order of
   the named keys.
   */
  lemma ReadBack(run: Run, runId: string, b: BundleFiles, lim: Limits, t: Tables)
    requires Buildable(run) && TickersValid(run) && Written(run, runId, b) && b.inputMatches
    requires WithinCeilings(b.fills, lim) && WithinCeilings(b.equity, lim)
    requires WithinCeilings(b.positions, lim) && WithinCeilings(b.greeks, lim)
    requires Accepts(b, lim, t)
    ensures OneRowEach(t.fills, run.fills, (f: FillRecord, row: Row) => ReportsFill(f, runId, row))
    ensures OneRowEach(t.equity, run.equity, (p: EquityPoint, row: Row) => ReportsEquity(p, row))
    ensures OneRowEach(t.positions, run.positions, (p: PositionSnapshot, row: Row) => ReportsPosition(p, row))
    ensures OneRowEach(t.greeks, run.greeks, (g: GreeksRow, row: Row) => ReportsGreeks(g, row))
    ensures FillsInOrder(t.fills) && PositionsInOrder(t.positions)
    ensures StepsInOrder(t.equity, EQUITY) && StepsInOrder(t.greeks, GREEKS)
  {
    hide FillRow, PositionRow, EquityRow, GreeksWireRow, ToContractId, TypedTable, Written, WithinCeilings, Accepts,
         RowChecks, Sort, AllCross, OneRowEach, FillsInOrder, PositionsInOrder, StepsInOrder, StepsExactly, TablesOf;
    WriteThenRead(run, runId, b, lim, t);
    FillsBack(run, runId, t.fills);
    EquityBack(run, runId, t.equity);
    PositionsBack(run, runId, t.positions);
    GreeksBack(run, runId, t.greeks);
  }

  // ---- What can be written, and what can be read, in the run's own fields --

  /** The expiration can be printed, and every unsigned field fits the signed wire type. */
  predicate FillFits(f: FillRecord)
  {
    && f.contract.expiration.DateTime? && FitsI64(f.contract.expiration.ns)
    && f.step <= I32_MAX && f.fillSeq <= I32_MAX && f.quantity <= I32_MAX
    && f.tradeId <= I64_MAX && f.positionId <= I64_MAX && f.orderId <= I64_MAX
    && f.contract.strike <= I64_MAX && f.price <= I64_MAX
  }

  predicate PositionFits(p: PositionSnapshot)
  {
    && p.contract.expiration.DateTime? && FitsI64(p.contract.expiration.ns)
    && p.step <= I32_MAX && p.quantity <= I32_MAX
    && p.positionId <= I64_MAX && p.tradeId <= I64_MAX && p.avgPrice <= I64_MAX && p.mark <= I64_MAX
  }

  predicate EquityFits(p: EquityPoint)
  {
    p.step <= I32_MAX && p.drawdown.Finite?
  }

  predicate GreeksFit(g: GreeksRow)
  {
    g.step <= I32_MAX
  }

  /** The unsigned fields fit the signed wire types, and the ratios are finite. */
  predicate SmallEnough(row: Row, schema: seq<Column>)
  {
    forall j | 0 <= j < |row| && j < |schema| ::
      && (row[j].Int? && schema[j].kind.U32? ==> row[j].n <= I32_MAX)
      && (row[j].Int? && schema[j].kind.U64? ==> row[j].n <= I64_MAX)
      && (row[j].Num? ==> row[j].f.Finite?)
  }

  lemma NarrowsIff(row: Row, schema: seq<Column>)
    requires TypedRow(row, schema)
    ensures NarrowRow(row, schema).Ok? <==> SmallEnough(row, schema)
  {
    hide NarrowRow;
    NarrowRowOk(row, schema);
  }

  lemma FillKinds(j: nat)
    requires j < 18
    ensures FILLS[j].kind.U32? <==> j in {0, 6, 13}
    ensures FILLS[j].kind.U64? <==> j in {3, 4, 5, 10, 14}
    ensures !FILLS[j].kind.Ratio?
  {
  }

  lemma FillRowSmall(row: Row)
    requires TypedRow(row, FILLS)
    ensures SmallEnough(row, FILLS) <==>
            && IntAt(row, 0) <= I32_MAX && IntAt(row, 6) <= I32_MAX && IntAt(row, 13) <= I32_MAX
            && IntAt(row, 3) <= I64_MAX && IntAt(row, 4) <= I64_MAX && IntAt(row, 5) <= I64_MAX
            && IntAt(row, 10) <= I64_MAX && IntAt(row, 14) <= I64_MAX
  {
    forall j | 0 <= j < 18
      ensures FILLS[j].kind.U32? <==> j in {0, 6, 13}
      ensures FILLS[j].kind.U64? <==> j in {3, 4, 5, 10, 14}
      ensures !FILLS[j].kind.Ratio?
    {
      FillKinds(j);
    }
  }

  lemma FillWrites(f: FillRecord, runId: string)
    ensures FillRow(f, runId).Ok? && NarrowRow(FillRow(f, runId).value, FILLS).Ok? <==> FillFits(f)
  {
    hide NarrowRow, SmallEnough, ToContractId, TypedRow;
    FillRowBuilds(f, runId);
    PrintableIff(f.contract);
    if FillRow(f, runId).Ok? {
      var row := FillRow(f, runId).value;
      FillRowTyped(f, runId);
      NarrowsIff(row, FILLS);
      FillRowSmall(row);
    }
  }

  lemma PositionKinds(j: nat)
    requires j < 13
    ensures POSITIONS[j].kind.U32? <==> j in {0, 6}
    ensures POSITIONS[j].kind.U64? <==> j in {2, 3, 7, 8}
    ensures !POSITIONS[j].kind.Ratio?
  {
  }

  lemma PositionRowSmall(row: Row)
    requires TypedRow(row, POSITIONS)
    ensures SmallEnough(row, POSITIONS) <==>
            && IntAt(row, 0) <= I32_MAX && IntAt(row, 6) <= I32_MAX
            && IntAt(row, 2) <= I64_MAX && IntAt(row, 3) <= I64_MAX && IntAt(row, 7) <= I64_MAX
            && IntAt(row, 8) <= I64_MAX
  {
    forall j | 0 <= j < 13
      ensures POSITIONS[j].kind.U32? <==> j in {0, 6}
      ensures POSITIONS[j].kind.U64? <==> j in {2, 3, 7, 8}
      ensures !POSITIONS[j].kind.Ratio?
    {
      PositionKinds(j);
    }
  }

  lemma PositionWrites(p: PositionSnapshot)
    ensures PositionRow(p).Ok? && NarrowRow(PositionRow(p).value, POSITIONS).Ok? <==> PositionFits(p)
  {
    hide NarrowRow, SmallEnough, ToContractId, TypedRow;
    PositionRowBuilds(p);
    PrintableIff(p.contract);
    if PositionRow(p).Ok? {
      var row := PositionRow(p).value;
      PositionRowTyped(p);
      NarrowsIff(row, POSITIONS);
      PositionRowSmall(row);
    }
  }

  lemma PlainWrites(p: EquityPoint, g: GreeksRow)
    ensures TypedRow(EquityRow(p), EQUITY) && TypedRow(GreeksWireRow(g), GREEKS)
    ensures NarrowRow(EquityRow(p), EQUITY).Ok? <==> EquityFits(p)
    ensures NarrowRow(GreeksWireRow(g), GREEKS).Ok? <==> GreeksFit(g)
  {
    hide NarrowRow;
    PlainRowsTyped(p, g);
    var e, w := EquityRow(p), GreeksWireRow(g);
    NarrowsIff(e, EQUITY);
    NarrowsIff(w, GREEKS);
    assert EQUITY[0].kind.U32? && e[0] == Int(p.step) && e[5] == Num(p.drawdown);
    assert forall j | 0 < j < 6 :: !EQUITY[j].kind.U32? && !EQUITY[j].kind.U64?;
    assert GREEKS[0].kind.U32? && w[0] == Int(g.step);
    assert forall j | 0 < j < 8 :: !GREEKS[j].kind.U32? && !GREEKS[j].kind.U64?;
  }

  lemma PrintableIff(k: ContractKey)
    ensures ToContractId(k).Ok? <==> k.expiration.DateTime? && FitsI64(k.expiration.ns)
  {
  }

  lemma FillsWrite(run: Run, runId: string)
    ensures (forall i | 0 <= i < |run.fills| :: ToContractId(run.fills[i].contract).Ok?) &&
            AllFit(TablesOf(run, runId).fills, FILLS) <==>
            forall i | 0 <= i < |run.fills| :: FillFits(run.fills[i])
  {
    hide FillRow, ToContractId, TypedRow, NarrowRow, FillFits;
    var rows := TablesOf(run, runId).fills;
    forall i | 0 <= i < |run.fills|
      ensures ToContractId(run.fills[i].contract).Ok? && TypedRow(rows[i], FILLS) && NarrowRow(rows[i], FILLS).Ok? <==>
              FillFits(run.fills[i])
      ensures ToContractId(run.fills[i].contract).Ok? ==> TypedRow(rows[i], FILLS)
    {
      FillRowBuilds(run.fills[i], runId);
      FillWrites(run.fills[i], runId);
      if FillRow(run.fills[i], runId).Ok? { FillRowTyped(run.fills[i], runId); }
    }
  }

  lemma PositionsWrite(run: Run, runId: string)
    ensures (forall i | 0 <= i < |run.positions| :: ToContractId(run.positions[i].contract).Ok?) &&
            AllFit(TablesOf(run, runId).positions, POSITIONS) <==>
            forall i | 0 <= i < |run.positions| :: PositionFits(run.positions[i])
  {
    hide PositionRow, ToContractId, TypedRow, NarrowRow, PositionFits;
    var rows := TablesOf(run, runId).positions;
    forall i | 0 <= i < |run.positions|
      ensures (ToContractId(run.positions[i].contract).Ok? && TypedRow(rows[i], POSITIONS) &&
               NarrowRow(rows[i], POSITIONS).Ok?) <==> PositionFits(run.positions[i])
      ensures ToContractId(run.positions[i].contract).Ok? ==> TypedRow(rows[i], POSITIONS)
    {
      PositionRowBuilds(run.positions[i]);
      PositionWrites(run.positions[i]);
      if PositionRow(run.positions[i]).Ok? { PositionRowTyped(run.positions[i]); }
    }
  }

  lemma PlainTablesWrite(run: Run, runId: string)
    ensures AllFit(TablesOf(run, runId).equity, EQUITY) <==>
            forall i | 0 <= i < |run.equity| :: EquityFits(run.equity[i])
    ensures AllFit(TablesOf(run, runId).greeks, GREEKS) <==>
            forall i | 0 <= i < |run.greeks| :: GreeksFit(run.greeks[i])
  {
    hide EquityRow, GreeksWireRow, TypedRow, NarrowRow, EquityFits, GreeksFit;
    var none, noGreeks := EquityPoint(0, 0, 0, 0, 0, NotFinite), GreeksRow(0, 0, 0, 0, 0, 0, 0, 0);
    var equity, greeks := TablesOf(run, runId).equity, TablesOf(run, runId).greeks;
    forall i | 0 <= i < |run.equity|
      ensures TypedRow(equity[i], EQUITY) && (NarrowRow(equity[i], EQUITY).Ok? <==> EquityFits(run.equity[i]))
    {
      PlainWrites(run.equity[i], noGreeks);
    }
    forall i | 0 <= i < |run.greeks|
      ensures TypedRow(greeks[i], GREEKS) && (NarrowRow(greeks[i], GREEKS).Ok? <==> GreeksFit(run.greeks[i]))
    {
      PlainWrites(none, run.greeks[i]);
    }
  }

  /**
   When a run can be written: exactly when every contract has an absolute expiry
   within `i64` nanoseconds, every unsigned field fits the signed type of its
   column, and every drawdown is finite.
   */
  lemma WritableIff(run: Run, runId: string)
    ensures Writable(run, runId) <==>
            && (forall i | 0 <= i < |run.fills| :: FillFits(run.fills[i]))
            && (forall i | 0 <= i < |run.positions| :: PositionFits(run.positions[i]))
            && (forall i | 0 <= i < |run.equity| :: EquityFits(run.equity[i]))
            && (forall i | 0 <= i < |run.greeks| :: GreeksFit(run.greeks[i]))
  {
    hide AllFit, FillFits, PositionFits, EquityFits, GreeksFit, ToContractId, TablesOf;
    FillsWrite(run, runId);
    PositionsWrite(run, runId);
    PlainTablesWrite(run, runId);
  }

  /** No signed field that is read as a fee is negative, and no text is too long. */
  predicate ReadsBack(row: Row, schema: seq<Column>, lim: Limits)
  {
    forall j | 0 <= j < |row| && j < |schema| ::
      && (row[j].Int? && schema[j].kind.Fees? ==> row[j].n >= 0)
      && (row[j].Str? ==> |row[j].s| <= lim.maxStringLen)
  }

  lemma CrossesIff(row: Row, schema: seq<Column>, lim: Limits)
    requires TypedRow(row, schema)
    ensures RowCrosses(row, schema, lim) <==> NarrowRow(row, schema).Ok? && ReadsBack(row, schema, lim)
  {
    hide NarrowRow;
    NarrowsIff(row, schema);
  }

  /** The fill can be read back: its fees are not negative and its texts are not too long. */
  predicate FillReads(f: FillRecord, runId: string, lim: Limits)
  {
    && f.fees >= 0 && ToContractId(f.contract).Ok? && |ToContractId(f.contract).value| <= lim.maxStringLen
    && |runId| <= lim.maxStringLen && |f.contract.underlying| <= lim.maxStringLen
    && (if f.contract.style.Call? then 4 else 3) <= lim.maxStringLen
    && (if f.side.Long? then 4 else 5) <= lim.maxStringLen && (if f.mode.Naive? then 5 else 9) <= lim.maxStringLen
  }

  function ExitLength(r: Option<ExitReason>): nat
  {
    if r.None? then 0
    else match r.value
      case TargetReached => 14
      case StopLoss => 9
      case Expiration => 10
      case RollOver => 9
      case ManualClose => 12
      case MarginCall => 11
      case Other(text) => |text|
  }

  predicate PositionReads(p: PositionSnapshot, lim: Limits)
  {
    && ToContractId(p.contract).Ok? && |ToContractId(p.contract).value| <= lim.maxStringLen
    && (if p.side.Long? then 4 else 5) <= lim.maxStringLen && ExitLength(p.exitReason) <= lim.maxStringLen
  }

  lemma FillFees(j: nat)
    requires j < 18
    ensures FILLS[j].kind.Fees? <==> j == 15
    ensures FILLS[j].kind.Text? <==> j in {2, 7, 9, 11, 12, 17}
    ensures !FILLS[j].kind.OptText?
  {
  }

  lemma FillRowReads(row: Row, lim: Limits)
    requires TypedRow(row, FILLS)
    ensures ReadsBack(row, FILLS, lim) <==>
            && IntAt(row, 15) >= 0 && |StrAt(row, 2)| <= lim.maxStringLen && |StrAt(row, 7)| <= lim.maxStringLen
            && |StrAt(row, 9)| <= lim.maxStringLen && |StrAt(row, 11)| <= lim.maxStringLen
            && |StrAt(row, 12)| <= lim.maxStringLen && |StrAt(row, 17)| <= lim.maxStringLen
  {
    forall j | 0 <= j < 18
      ensures FILLS[j].kind.Fees? <==> j == 15
      ensures FILLS[j].kind.Text? <==> j in {2, 7, 9, 11, 12, 17}
      ensures !FILLS[j].kind.OptText?
    {
      FillFees(j);
    }
  }

  lemma FillCrosses(f: FillRecord, runId: string, lim: Limits)
    requires FillRow(f, runId).Ok?
    ensures RowCrosses(FillRow(f, runId).value, FILLS, lim) <==> FillFits(f) && FillReads(f, runId, lim)
  {
    hide NarrowRow, ReadsBack, ToContractId, TypedRow, RowCrosses, FillFits;
    var row := FillRow(f, runId).value;
    FillRowTyped(f, runId);
    FillWrites(f, runId);
    CrossesIff(row, FILLS, lim);
    FillRowReads(row, lim);
  }

  lemma PositionRowReads(row: Row, lim: Limits)
    requires TypedRow(row, POSITIONS)
    ensures ReadsBack(row, POSITIONS, lim) <==>
            && |StrAt(row, 4)| <= lim.maxStringLen && |StrAt(row, 5)| <= lim.maxStringLen
            && |StrAt(row, 11)| <= lim.maxStringLen
  {
    forall j | 0 <= j < 13
      ensures !POSITIONS[j].kind.Fees? && (POSITIONS[j].kind.Text? <==> j in {4, 5})
      ensures POSITIONS[j].kind.OptText? <==> j == 11
    {
      PositionTexts(j);
    }
  }

  lemma PositionTexts(j: nat)
    requires j < 13
    ensures !POSITIONS[j].kind.Fees? && (POSITIONS[j].kind.Text? <==> j in {4, 5})
    ensures POSITIONS[j].kind.OptText? <==> j == 11
  {
  }

  lemma PositionCrosses(p: PositionSnapshot, lim: Limits)
    requires PositionRow(p).Ok?
    ensures RowCrosses(PositionRow(p).value, POSITIONS, lim) <==> PositionFits(p) && PositionReads(p, lim)
  {
    hide NarrowRow, ReadsBack, ToContractId, TypedRow, RowCrosses, PositionFits;
    var row := PositionRow(p).value;
    PositionRowTyped(p);
    PositionWrites(p);
    CrossesIff(row, POSITIONS, lim);
    PositionRowReads(row, lim);
  }

  lemma PlainCrosses(p: EquityPoint, g: GreeksRow, lim: Limits)
    ensures RowCrosses(EquityRow(p), EQUITY, lim) <==> EquityFits(p)
    ensures RowCrosses(GreeksWireRow(g), GREEKS, lim) <==> GreeksFit(g) && g.fees >= 0
  {
    hide NarrowRow;
    PlainWrites(p, g);
    var e, w := EquityRow(p), GreeksWireRow(g);
    CrossesIff(e, EQUITY, lim);
    CrossesIff(w, GREEKS, lim);
    assert forall j | 0 <= j < 6 :: !EQUITY[j].kind.Fees?;
    assert GREEKS[6].kind.Fees? && w[6] == Int(g.fees);
    assert forall j | 0 <= j < 8 && j != 6 :: !GREEKS[j].kind.Fees?;
  }

  /** Every step below the number of points has its point, and its attribution row. */
  ghost predicate StepsCovered(run: Run)
  {
    && |run.equity| == |run.greeks|
    && (forall i | 0 <= i < |run.equity| :: run.equity[i].step < |run.equity|)
    && (forall i, j | 0 <= i < j < |run.equity| :: run.equity[i].step != run.equity[j].step)
    && (forall i | 0 <= i < |run.greeks| :: run.greeks[i].step < |run.greeks|)
    && (forall i, j | 0 <= i < j < |run.greeks| :: run.greeks[i].step != run.greeks[j].step)
  }

  predicate SameFill(f: FillRecord, g: FillRecord)
  {
    f.step == g.step && f.orderId == g.orderId && f.fillSeq == g.fillSeq
  }

  predicate SamePosition(p: PositionSnapshot, q: PositionSnapshot)
  {
    p.step == q.step && p.positionId == q.positionId
  }

  /** No fill and no position is recorded twice, and none at a step without a point. */
  ghost predicate RecordsDistinct(run: Run)
  {
    && (forall i, j | 0 <= i < j < |run.fills| :: !SameFill(run.fills[i], run.fills[j]))
    && (forall i, j | 0 <= i < j < |run.positions| :: !SamePosition(run.positions[i], run.positions[j]))
    && (forall i | 0 <= i < |run.fills| :: run.fills[i].step < |run.equity|)
    && (forall i | 0 <= i < |run.positions| :: run.positions[i].step < |run.equity|)
  }

  lemma FillKeyOf(f: FillRecord, runId: string)
    requires FillRow(f, runId).Ok?
    ensures FillKey(FillRow(f, runId).value) == [f.step as int, f.orderId as int, f.fillSeq as int]
    ensures StepOf(FillRow(f, runId).value) == f.step
  {
    hide ToContractId;
  }

  lemma PositionKeyOf(p: PositionSnapshot)
    requires PositionRow(p).Ok?
    ensures PositionKey(PositionRow(p).value) == [p.step as int, p.positionId as int]
    ensures StepOf(PositionRow(p).value) == p.step
  {
    hide ToContractId;
  }

  lemma StepKeyOf(p: EquityPoint, g: GreeksRow)
    ensures StepKey(EquityRow(p)) == [p.step as int] && StepOf(EquityRow(p)) == p.step
    ensures StepKey(GreeksWireRow(g)) == [g.step as int] && StepOf(GreeksWireRow(g)) == g.step
  {
  }

  lemma FillsStructured(run: Run, runId: string)
    requires Buildable(run)
    ensures var rows := TablesOf(run, runId).fills;
            && (DistinctKeys(rows, FillKey) <==>
                forall i, j | 0 <= i < j < |run.fills| :: !SameFill(run.fills[i], run.fills[j]))
            && forall i | 0 <= i < |run.fills| :: StepOf(rows[i]) == run.fills[i].step
  {
    hide FillRow, FillKey, StepOf, ToContractId;
    var rows := TablesOf(run, runId).fills;
    forall i | 0 <= i < |run.fills|
      ensures StepOf(rows[i]) == run.fills[i].step
      ensures FillKey(rows[i]) == [run.fills[i].step as int, run.fills[i].orderId as int, run.fills[i].fillSeq as int]
    {
      FillRowBuilds(run.fills[i], runId);
      FillKeyOf(run.fills[i], runId);
    }
    forall i, j | 0 <= i < j < |run.fills|
      ensures FillKey(rows[i]) == FillKey(rows[j]) <==> SameFill(run.fills[i], run.fills[j])
    {
      var f, g := run.fills[i], run.fills[j];
      assert FillKey(rows[i])[0] == f.step && FillKey(rows[i])[1] == f.orderId && FillKey(rows[i])[2] == f.fillSeq;
      assert FillKey(rows[j])[0] == g.step && FillKey(rows[j])[1] == g.orderId && FillKey(rows[j])[2] == g.fillSeq;
    }
  }

  lemma PositionsStructured(run: Run, runId: string)
    requires Buildable(run)
    ensures var rows := TablesOf(run, runId).positions;
            && (DistinctKeys(rows, PositionKey) <==>
                forall i, j | 0 <= i < j < |run.positions| :: !SamePosition(run.positions[i], run.positions[j]))
            && forall i | 0 <= i < |run.positions| :: StepOf(rows[i]) == run.positions[i].step
  {
    hide PositionRow, PositionKey, StepOf, ToContractId;
    var rows := TablesOf(run, runId).positions;
    forall i | 0 <= i < |run.positions|
      ensures StepOf(rows[i]) == run.positions[i].step
      ensures PositionKey(rows[i]) == [run.positions[i].step as int, run.positions[i].positionId as int]
    {
      PositionRowBuilds(run.positions[i]);
      PositionKeyOf(run.positions[i]);
    }
    forall i, j | 0 <= i < j < |run.positions|
      ensures PositionKey(rows[i]) == PositionKey(rows[j]) <==> SamePosition(run.positions[i], run.positions[j])
    {
      var p, q := run.positions[i], run.positions[j];
      assert PositionKey(rows[i])[0] == p.step && PositionKey(rows[i])[1] == p.positionId;
      assert PositionKey(rows[j])[0] == q.step && PositionKey(rows[j])[1] == q.positionId;
    }
  }

  lemma StepsStructured(run: Run, runId: string)
    ensures var t := TablesOf(run, runId);
            StepsExactly(t.equity) && StepsExactly(t.greeks) && |t.equity| == |t.greeks| <==> StepsCovered(run)
  {
    hide EquityRow, GreeksWireRow, StepKey, StepOf;
    var t := TablesOf(run, runId);
    var none, noGreeks := EquityPoint(0, 0, 0, 0, 0, NotFinite), GreeksRow(0, 0, 0, 0, 0, 0, 0, 0);
    forall i | 0 <= i < |run.equity|
      ensures StepOf(t.equity[i]) == run.equity[i].step && StepKey(t.equity[i]) == [run.equity[i].step as int]
    {
      StepKeyOf(run.equity[i], noGreeks);
    }
    forall i | 0 <= i < |run.greeks|
      ensures StepOf(t.greeks[i]) == run.greeks[i].step && StepKey(t.greeks[i]) == [run.greeks[i].step as int]
    {
      StepKeyOf(none, run.greeks[i]);
    }
    forall i, j | 0 <= i < j < |run.equity|
      ensures StepKey(t.equity[i]) == StepKey(t.equity[j]) <==> run.equity[i].step == run.equity[j].step
    {
      assert StepKey(t.equity[i])[0] == run.equity[i].step && StepKey(t.equity[j])[0] == run.equity[j].step;
    }
    forall i, j | 0 <= i < j < |run.greeks|
      ensures StepKey(t.greeks[i]) == StepKey(t.greeks[j]) <==> run.greeks[i].step == run.greeks[j].step
    {
      assert StepKey(t.greeks[i])[0] == run.greeks[i].step && StepKey(t.greeks[j])[0] == run.greeks[j].step;
    }
  }

  lemma StructuredIff(run: Run, runId: string)
    requires Buildable(run)
    ensures Structured(TablesOf(run, runId)) <==> StepsCovered(run) && RecordsDistinct(run)
  {
    hide StepsExactly, StepsCovered, DistinctKeys, SameFill, SamePosition, FillKey, PositionKey, StepOf;
    FillsStructured(run, runId);
    PositionsStructured(run, runId);
    StepsStructured(run, runId);
  }

  /** Everything the reader looks at, in the run's own fields. */
  ghost predicate Readable(run: Run, runId: string, lim: Limits)
  {
    && (forall i | 0 <= i < |run.fills| :: FillFits(run.fills[i]) && FillReads(run.fills[i], runId, lim))
    && (forall i | 0 <= i < |run.positions| ::
          PositionFits(run.positions[i]) && PositionReads(run.positions[i], lim))
    && (forall i | 0 <= i < |run.equity| :: EquityFits(run.equity[i]))
    && (forall i | 0 <= i < |run.greeks| :: GreeksFit(run.greeks[i]) && run.greeks[i].fees >= 0)
    && StepsCovered(run) && RecordsDistinct(run)
  }

  lemma AllCrossIff(run: Run, runId: string, lim: Limits)
    requires Buildable(run)
    ensures var t := TablesOf(run, runId);
            && (AllCross(t.fills, FILLS, lim) <==>
                forall i | 0 <= i < |run.fills| :: FillFits(run.fills[i]) && FillReads(run.fills[i], runId, lim))
            && (AllCross(t.positions, POSITIONS, lim) <==>
                forall i | 0 <= i < |run.positions| ::
                  PositionFits(run.positions[i]) && PositionReads(run.positions[i], lim))
            && (AllCross(t.equity, EQUITY, lim) <==>
                forall i | 0 <= i < |run.equity| :: EquityFits(run.equity[i]))
            && (AllCross(t.greeks, GREEKS, lim) <==>
                forall i | 0 <= i < |run.greeks| :: GreeksFit(run.greeks[i]) && run.greeks[i].fees >= 0)
  {
    hide FillRow, PositionRow, EquityRow, GreeksWireRow, ToContractId, RowCrosses, FillFits, FillReads;
    hide PositionFits, PositionReads, EquityFits, GreeksFit;
    var t := TablesOf(run, runId);
    var none, noGreeks := EquityPoint(0, 0, 0, 0, 0, NotFinite), GreeksRow(0, 0, 0, 0, 0, 0, 0, 0);
    forall i | 0 <= i < |run.fills|
      ensures RowCrosses(t.fills[i], FILLS, lim) <==> FillFits(run.fills[i]) && FillReads(run.fills[i], runId, lim)
    {
      FillRowBuilds(run.fills[i], runId);
      FillCrosses(run.fills[i], runId, lim);
    }
    forall i | 0 <= i < |run.positions|
      ensures RowCrosses(t.positions[i], POSITIONS, lim) <==>
              PositionFits(run.positions[i]) && PositionReads(run.positions[i], lim)
    {
      PositionRowBuilds(run.positions[i]);
      PositionCrosses(run.positions[i], lim);
    }
    forall i | 0 <= i < |run.equity| ensures RowCrosses(t.equity[i], EQUITY, lim) <==> EquityFits(run.equity[i]) {
      PlainCrosses(run.equity[i], noGreeks, lim);
    }
    forall i | 0 <= i < |run.greeks|
      ensures RowCrosses(t.greeks[i], GREEKS, lim) <==> GreeksFit(run.greeks[i]) && run.greeks[i].fees >= 0
    {
      PlainCrosses(none, run.greeks[i], lim);
    }
  }

  /**
   When a written run is read back: exactly when its fees are not negative, its
   texts are not too long, no fill or position is recorded twice, and both
   per-step tables hold the steps from 0 on, once each.
   */
  lemma ReadableIff(run: Run, runId: string, b: BundleFiles, lim: Limits)
    requires Buildable(run) && TickersValid(run) && Written(run, runId, b) && b.inputMatches
    requires WithinCeilings(b.fills, lim) && WithinCeilings(b.equity, lim)
    requires WithinCeilings(b.positions, lim) && WithinCeilings(b.greeks, lim)
    ensures (exists t :: Accepts(b, lim, t)) <==> Readable(run, runId, lim)
  {
    hide Accepts, Written, WithinCeilings, AllCross, Structured, StepsCovered, RecordsDistinct, TablesOf, Sort,
         FillFits, FillReads, PositionFits, PositionReads, EquityFits, GreeksFit;
    AllCrossIff(run, runId, lim);
    StructuredIff(run, runId);
    WriteThenRead(run, runId, b, lim, SortTables(TablesOf(run, runId)));
    forall t ensures Accepts(b, lim, t) ==> WellFormed(run, runId, lim) { WriteThenRead(run, runId, b, lim, t); }
  }

  // ---- A run that can be written and not be read ---------------------------

  /** A one-step run without trades whose attribution row carries these fees. */
  function OneStep(fees: i64): Run
  {
    Run([], [EquityPoint(0, 0, 0, 0, 0, Finite(0.0))], [], [GreeksRow(0, 0, 0, 0, 0, 0, fees, 0)])
  }

  lemma OneStepTables(fees: i64, runId: string)
    ensures TablesOf(OneStep(fees), runId) ==
            Tables([], [EquityRow(OneStep(fees).equity[0])], [], [GreeksWireRow(OneStep(fees).greeks[0])])
  {
    hide EquityRow, GreeksWireRow;
    var run, t := OneStep(fees), TablesOf(OneStep(fees), runId);
    assert t.equity == [EquityRow(run.equity[0])] && t.greeks == [GreeksWireRow(run.greeks[0])];
  }

  lemma OneStepRows(fees: i64, lim: Limits)
    ensures var e, g := EquityRow(OneStep(fees).equity[0]), GreeksWireRow(OneStep(fees).greeks[0]);
            && TypedRow(e, EQUITY) && NarrowRow(e, EQUITY).Ok? && RowCrosses(e, EQUITY, lim) && StepOf(e) == 0
            && TypedRow(g, GREEKS) && NarrowRow(g, GREEKS).Ok? && StepOf(g) == 0
            && (RowCrosses(g, GREEKS, lim) <==> fees >= 0)
  {
    var e, g := EquityRow(OneStep(fees).equity[0]), GreeksWireRow(OneStep(fees).greeks[0]);
    PlainRowsTyped(OneStep(fees).equity[0], OneStep(fees).greeks[0]);
    NarrowRowOk(e, EQUITY);
    NarrowRowOk(g, GREEKS);
    assert !Crosses(g[6], GREEKS[6].kind, lim) <==> fees < 0;
  }

  /** The writer takes any fees; the reader, only those not below zero. */
  lemma NegativeFeesAreLost(fees: i64, runId: string, lim: Limits)
    ensures Writable(OneStep(fees), runId)
    ensures WellFormed(OneStep(fees), runId, lim) <==> fees >= 0
  {
    hide EquityRow, GreeksWireRow, TypedRow, NarrowRow, RowCrosses, TablesOf;
    OneStepTables(fees, runId);
    OneStepRows(fees, lim);
    var t := TablesOf(OneStep(fees), runId);
    assert Structured(t);
    assert AllCross(t.greeks, GREEKS, lim) <==> RowCrosses(t.greeks[0], GREEKS, lim);
  }
}
