/** The Parquet feed: a streaming group-by-step over record batches (src/data/historical.rs). */
module Parquet {
  import opened Common
  import opened Market
  import opened Convert
  import opened Tape

  /** One row of a batch; a null cell is `None`. */
  datatype Row = Row(
    step: Option<i32>, ts: Option<i64>, underlying: Option<string>, underlyingPrice: Option<i64>,
    tick: Option<i64>, multiplier: Option<i32>, expiration: Option<i64>, strike: Option<i64>,
    style: Option<string>, bid: Option<i64>, ask: Option<i64>, bidSize: Option<i32>, askSize: Option<i32>,
    iv: Option<Analytic>, delta: Option<Analytic>, gamma: Option<Analytic>, theta: Option<Analytic>,
    vega: Option<Analytic>)

  /** One decoded record batch and the memory its arrays take. */
  datatype Batch = Batch(rows: seq<Row>, bytes: nat)

  function PriceCents(value: i64): Result<u64, Error>
  {
    if value >= 0 then Ok(value) else Err(Conversion)
  }

  function CountU32(value: i32): Result<u32, Error>
  {
    if value >= 0 then Ok(value) else Err(Conversion)
  }

  function NewQuantity(value: u32): Result<u32, Error>
  {
    if value == 0 then Err(InvalidQuantity) else Ok(value)
  }

  function LowerChar(c: char): char
  {
    if 'A' <= c <= 'Z' then (c as int + 32) as char else c
  }

  predicate EqIgnoreCase(s: string, lower: string)
  {
    |s| == |lower| && forall i | 0 <= i < |s| :: LowerChar(s[i]) == lower[i]
  }

  function ParseStyle(s: string): Result<Style, Error>
  {
    if EqIgnoreCase(s, "call") then Ok(Call)
    else if EqIgnoreCase(s, "put") then Ok(Put)
    else Err(Conversion)
  }

  /** An absent Greek is the documented zero. */
  function Greek(cell: Option<Analytic>): Analytic
  {
    if cell.Some? then cell.value else NO_GREEK
  }

  /** The fields every row of one step group must repeat. */
  datatype Header = Header(
    stepRaw: i32, step: u32, ts: i64, underlying: string, underlyingPrice: u64, tick: u64, multiplier: u32)

  /** `GroupBuilder::start`. */
  function Start(row: Row, stepRaw: i32): Result<Header, Error>
  {
    var step :- CountU32(stepRaw);
    var ts :- Require(row.ts);
    var name :- Require(row.underlying);
    var underlying :- NewUnderlying(name);
    var rawPrice :- Require(row.underlyingPrice);
    var price :- PriceCents(rawPrice);
    var rawTick :- Require(row.tick);
    var tick :- PriceCents(rawTick);
    var rawMultiplier :- Require(row.multiplier);
    var multiplier :- CountU32(rawMultiplier);
    Ok(Header(stepRaw, step, ts, underlying, price, tick, multiplier))
  }

  /** The row repeats the header fields of its group. */
  predicate Agrees(h: Header, row: Row)
  {
    && row.ts == Some(h.ts) && row.underlying == Some(h.underlying)
    && row.underlyingPrice == Some(h.underlyingPrice) && row.tick == Some(h.tick)
    && row.multiplier == Some(h.multiplier)
  }

  function RowQuote(row: Row): Result<RawQuote, Error>
  {
    var expiration :- Require(row.expiration);
    var rawStrike :- Require(row.strike);
    var strike :- PriceCents(rawStrike);
    var styleCell :- Require(row.style);
    var style :- ParseStyle(styleCell);
    var rawBid :- Require(row.bid);
    var bid :- PriceCents(rawBid);
    var rawAsk :- Require(row.ask);
    var ask :- PriceCents(rawAsk);
    var rawBidSize :- Require(row.bidSize);
    var bidCount :- CountU32(rawBidSize);
    var bidSize :- NewQuantity(bidCount);
    var rawAskSize :- Require(row.askSize);
    var askCount :- CountU32(rawAskSize);
    var askSize :- NewQuantity(askCount);
    var iv :- Require(row.iv);
    Ok(RawQuote(DateTime(expiration), strike, style, bid, ask, bidSize, askSize,
                iv, Greek(row.delta), Greek(row.gamma), Greek(row.theta), Greek(row.vega)))
  }

  /** One group under construction. */
  datatype Group = Group(header: Header, quotes: seq<RawQuote>)

  /** `GroupBuilder::push_row` on values. */
  function PushRow(g: Group, row: Row, lim: Limits): Result<Group, Error>
  {
    if !Agrees(g.header, row) then Err(Conversion)
    else if |g.quotes| + 1 > lim.maxContractsPerSnapshot then Err(TapeTooLarge(MaxContractsPerSnapshot))
    else
      var q :- RowQuote(row);
      Ok(g.(quotes := g.quotes + [q]))
  }

  /** `GroupBuilder::finish`. */
  function Finish(g: Group, anchorTs: i64): Result<ChainSnapshot, Error>
  {
    var h := g.header;
    Snapshot(SnapshotMeta(h.ts, h.step, anchorTs, h.underlying, h.underlyingPrice, h.tick, h.multiplier), g.quotes)
  }

  class GroupBuilder {
    const header: Header
    var quotes: seq<RawQuote>

    constructor (header: Header)
      ensures this.header == header && quotes == []
    {
      this.header := header;
      quotes := [];
    }

    function Value(): Group
      reads this
    {
      Group(header, quotes)
    }

    method Push(row: Row, lim: Limits) returns (r: Result<(), Error>)
      modifies this
      ensures match PushRow(old(Value()), row, lim)
              case Ok(g) => r == Ok(()) && Value() == g && |quotes| == |old(quotes)| + 1 <= lim.maxContractsPerSnapshot
              case Err(e) => r == Err(e) && Value() == old(Value())
    {
      if !Agrees(header, row) {
        return Err(Conversion);
      }
      if |quotes| + 1 > lim.maxContractsPerSnapshot {
        return Err(TapeTooLarge(MaxContractsPerSnapshot));
      }
      var q := RowQuote(row);
      if q.Err? {
        return Err(q.error);
      }
      quotes := quotes + [q.value];
      return Ok(());
    }
  }

  // ---- The stream over flat rows ------------------------------------------

  /** The state carried from row to row, across batches. */
  datatype Stream = Stream(
    tape: seq<ChainSnapshot>, anchor: Option<i64>, current: Option<Group>, prevStep: Option<i32>)

  const EMPTY := Stream([], None, None, None)

  /** The first finished group anchors the tape. */
  function AnchorFor(anchor: Option<i64>, g: Group): i64
  {
    if anchor.Some? then anchor.value else g.header.ts
  }

  /** `push_snapshot` on values. */
  function PushGroup(tape: seq<ChainSnapshot>, anchor: Option<i64>, g: Group, lim: Limits)
    : Result<seq<ChainSnapshot>, Error>
  {
    var s :- Finish(g, AnchorFor(anchor, g));
    Push(tape, s, lim)
  }

  /** Flush the current group. */
  function Flush(st: Stream, lim: Limits): Result<Stream, Error>
  {
    match st.current
    case None => Ok(st)
    case Some(g) =>
      var tape :- PushGroup(st.tape, st.anchor, g, lim);
      Ok(st.(tape := tape, anchor := Some(AnchorFor(st.anchor, g)), current := None))
  }

  /** Open a group for `stepRaw` unless one is open already. */
  function Switch(st: Stream, row: Row, stepRaw: i32, lim: Limits): Result<Stream, Error>
  {
    if st.current.Some? && st.current.value.header.stepRaw == stepRaw then Ok(st)
    else
      var st' :- Flush(st, lim);
      if st.prevStep.Some? && stepRaw <= st.prevStep.value then Err(Conversion)
      else
        var h :- Start(row, stepRaw);
        Ok(st'.(current := Some(Group(h, [])), prevStep := Some(stepRaw)))
  }

  function Feed(st: Stream, row: Row, lim: Limits): Result<Stream, Error>
  {
    var stepRaw :- Require(row.step);
    var st' :- Switch(st, row, stepRaw, lim);
    if st'.current.None? then Err(Conversion)
    else
      var g :- PushRow(st'.current.value, row, lim);
      Ok(st'.(current := Some(g)))
  }

  function FeedAll(rows: seq<Row>, lim: Limits): Result<Stream, Error>
  {
    if rows == [] then Ok(EMPTY)
    else
      var st :- FeedAll(rows[..|rows| - 1], lim);
      Feed(st, rows[|rows| - 1], lim)
  }

  /** What a file with these rows materialises to: a function of the rows alone. */
  function Materialise(rows: seq<Row>, lim: Limits): Result<seq<ChainSnapshot>, Error>
  {
    var st :- FeedAll(rows, lim);
    var st' :- Flush(st, lim);
    var _ :- Sequence(st'.tape);
    Ok(st'.tape)
  }

  function Flatten(batches: seq<Batch>): seq<Row>
  {
    if batches == [] then [] else Flatten(batches[..|batches| - 1]) + batches[|batches| - 1].rows
  }

  function DecodedBytes(batches: seq<Batch>): nat
  {
    if batches == [] then 0 else DecodedBytes(batches[..|batches| - 1]) + batches[|batches| - 1].bytes
  }

  lemma {:induction false} FeedErrorStays(rows: seq<Row>, i: nat, lim: Limits)
    requires i <= |rows| && FeedAll(rows[..i], lim).Err?
    ensures FeedAll(rows, lim) == FeedAll(rows[..i], lim)
    decreases |rows|
  {
    if i < |rows| {
      var init := rows[..|rows| - 1];
      assert init[..i] == rows[..i];
      FeedErrorStays(init, i, lim);
    } else {
      assert rows[..i] == rows;
    }
  }

  lemma {:induction false} FlattenPrefix(batches: seq<Batch>, i: nat)
    requires i <= |batches|
    ensures |Flatten(batches[..i])| <= |Flatten(batches)|
    ensures Flatten(batches)[..|Flatten(batches[..i])|] == Flatten(batches[..i])
    ensures DecodedBytes(batches[..i]) <= DecodedBytes(batches)
    decreases |batches|
  {
    if i == |batches| {
      assert batches[..i] == batches;
    } else {
      var init := batches[..|batches| - 1];
      assert init[..i] == batches[..i];
      FlattenPrefix(init, i);
    }
  }

  // ---- ParquetFeed::open --------------------------------------------------

  ghost function GroupValue(g: GroupBuilder?): Option<Group>
    reads g
  {
    if g == null then None else Some(g.Value())
  }

  /** `push_snapshot`: finish a group and push it under the shared ceilings. */
  method PushSnapshot(builder: TapeBuilder, g: GroupBuilder, anchor: Option<i64>)
    returns (r: Result<(), Error>, anchor': Option<i64>)
    requires builder.Valid()
    modifies builder
    ensures builder.Valid()
    ensures anchor' == Some(AnchorFor(anchor, g.Value()))
    ensures match PushGroup(old(builder.tape), anchor, g.Value(), builder.lim)
            case Ok(tape) => r == Ok(()) && tape == builder.tape
            case Err(e) => r == Err(e)
  {
    var ts := AnchorFor(anchor, g.Value());
    anchor' := Some(ts);
    var h := g.header;
    var meta := SnapshotMeta(h.ts, h.step, ts, h.underlying, h.underlyingPrice, h.tick, h.multiplier);
    var s := RawQuotesToSnapshot(meta, g.quotes);
    if s.Err? {
      return Err(s.error), anchor';
    }
    r := builder.PushChecked(s.value);
  }

  /** Route one row to its group, flushing the group a new step closes. */
  method FeedRow(builder: TapeBuilder, current: GroupBuilder?, anchor: Option<i64>, prevStep: Option<i32>, row: Row)
    returns (r: Result<(), Error>, current': GroupBuilder?, anchor': Option<i64>, prevStep': Option<i32>)
    requires builder.Valid()
    modifies builder, current
    ensures builder.Valid()
    ensures current' != current && current' != null ==> fresh(current')
    ensures match Feed(Stream(old(builder.tape), anchor, old(GroupValue(current)), prevStep), row, builder.lim)
            case Ok(st) => r == Ok(()) && st == Stream(builder.tape, anchor', GroupValue(current'), prevStep')
            case Err(e) => r == Err(e)
  {
    hide Start, PushRow, PushGroup, AnchorFor, TotalBytes;
    current', anchor', prevStep' := current, anchor, prevStep;
    var stepCell := Require(row.step);
    if stepCell.Err? {
      r := Err(stepCell.error);
      return;
    }
    var stepRaw := stepCell.value;
    if current == null || current.header.stepRaw != stepRaw {
      if current != null {
        r, anchor' := PushSnapshot(builder, current, anchor);
        if r.Err? {
          return;
        }
      }
      if prevStep.Some? && stepRaw <= prevStep.value {
        r := Err(Conversion);
        return;
      }
      prevStep' := Some(stepRaw);
      var h := Start(row, stepRaw);
      if h.Err? {
        r := Err(h.error);
        return;
      }
      current' := new GroupBuilder(h.value);
    }
    r := current'.Push(row, builder.lim);
  }

  /** One batch, row by row. */
  method FeedBatch(builder: TapeBuilder, current: GroupBuilder?, anchor: Option<i64>, prevStep: Option<i32>,
                   rows: seq<Row>, ghost before: seq<Row>)
    returns (r: Result<(), Error>, current': GroupBuilder?, anchor': Option<i64>, prevStep': Option<i32>)
    requires builder.Valid()
    requires FeedAll(before, builder.lim) == Ok(Stream(builder.tape, anchor, GroupValue(current), prevStep))
    modifies builder, current
    ensures builder.Valid()
    ensures current' != current && current' != null ==> fresh(current')
    ensures match FeedAll(before + rows, builder.lim)
            case Ok(st) => r == Ok(()) && st == Stream(builder.tape, anchor', GroupValue(current'), prevStep')
            case Err(e) => r == Err(e)
  {
    hide Feed, TotalBytes;
    current', anchor', prevStep' := current, anchor, prevStep;
    var i := 0;
    assert before + rows[..0] == before;
    while i < |rows|
      invariant 0 <= i <= |rows|
      invariant builder.Valid() && (current' != current && current' != null ==> fresh(current'))
      invariant FeedAll(before + rows[..i], builder.lim)
             == Ok(Stream(builder.tape, anchor', GroupValue(current'), prevStep'))
    {
      ghost var upTo := before + rows[..i + 1];
      assert upTo[..|upTo| - 1] == before + rows[..i] && upTo[|upTo| - 1] == rows[i];
      r, current', anchor', prevStep' := FeedRow(builder, current', anchor', prevStep', rows[i]);
      if r.Err? {
        assert (before + rows)[..|upTo|] == upTo;
        FeedErrorStays(before + rows, |upTo|, builder.lim);
        return;
      }
      i := i + 1;
    }
    assert before + rows[..i] == before + rows;
    r := Ok(());
  }

  /**
   `open` after its metadata checks: batches outside, rows inside, the group
   carried over both. Unless the decompression guard fires, the result is a
   function of the concatenated rows.
   */
  method Open(batches: seq<Batch>, lim: Limits) returns (r: Result<seq<ChainSnapshot>, Error>)
    ensures DecodedBytes(batches) <= lim.maxDecompressedBytes ==> r == Materialise(Flatten(batches), lim)
    ensures DecodedBytes(batches) > lim.maxDecompressedBytes ==> r.Err?
    ensures r.Ok? ==> WithinBudget(r.value, lim)
  {
    hide Feed, PushGroup, AnchorFor, TotalBytes, Sequence;
    var builder := new TapeBuilder(lim);
    var current: GroupBuilder? := null;
    var anchor: Option<i64> := None;
    var prevStep: Option<i32> := None;
    var decoded := 0;
    var b := 0;
    while b < |batches|
      invariant 0 <= b <= |batches|
      invariant fresh(builder) && builder.Valid() && builder.lim == lim && (current != null ==> fresh(current))
      invariant decoded == DecodedBytes(batches[..b]) <= lim.maxDecompressedBytes
      invariant FeedAll(Flatten(batches[..b]), lim) == Ok(Stream(builder.tape, anchor, GroupValue(current), prevStep))
    {
      assert batches[..b + 1][..b] == batches[..b];
      FlattenPrefix(batches, b + 1);
      decoded := decoded + batches[b].bytes;
      if !FitsU64(decoded) {
        return Err(ArithmeticOverflow);
      }
      if decoded > lim.maxDecompressedBytes {
        return Err(TapeTooLarge(MaxDecompressedBytes));
      }
      ghost var upTo := Flatten(batches[..b + 1]);
      var fed;
      fed, current, anchor, prevStep :=
        FeedBatch(builder, current, anchor, prevStep, batches[b].rows, Flatten(batches[..b]));
      if fed.Err? {
        FeedErrorStays(Flatten(batches), |upTo|, lim);
        return Err(fed.error);
      }
      b := b + 1;
    }
    assert batches[..b] == batches;
    if current != null {
      var pushed, anchor' := PushSnapshot(builder, current, anchor);
      if pushed.Err? {
        return Err(pushed.error);
      }
    }
    var meta := FromTape(builder.tape);
    if meta.Err? {
      return Err(meta.error);
    }
    return Ok(builder.tape);
  }
}
