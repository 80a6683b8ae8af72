/**
 The declarative reading of the Parquet feed: cut the rows into maximal runs of
 one step, build each run on its own, push the results in order. The stream of
 `Parquet` refines it.
 */
module Grouping {
  import opened Common
  import opened Sorting
  import opened Market
  import opened Convert
  import opened Tape
  import opened Parquet

  function Last<T>(s: seq<T>): T
    requires s != []
  {
    s[|s| - 1]
  }

  function Init<T>(s: seq<T>): seq<T>
    requires s != []
  {
    s[..|s| - 1]
  }

  /** The maximal runs of rows with one step, in file order. */
  function Groups(rows: seq<Row>): (gs: seq<seq<Row>>)
    ensures forall i | 0 <= i < |gs| :: gs[i] != []
    ensures rows != [] ==> gs != []
  {
    if rows == [] then []
    else
      var gs, r := Groups(Init(rows)), Last(rows);
      if gs != [] && Last(Last(gs)).step == r.step then Init(gs) + [Last(gs) + [r]]
      else gs + [[r]]
  }

  function Concat(gs: seq<seq<Row>>): seq<Row>
  {
    if gs == [] then [] else Concat(Init(gs)) + Last(gs)
  }

  /** Build one run: header from its first row, then a quote from every row. */
  function Build(g: seq<Row>, lim: Limits): Result<Group, Error>
    requires g != []
  {
    if |g| == 1 then
      var stepRaw :- Require(g[0].step);
      var h :- Start(g[0], stepRaw);
      PushRow(Group(h, []), g[0], lim)
    else
      var b :- Build(Init(g), lim);
      PushRow(b, Last(g), lim)
  }

  function AnchorBefore(gs: seq<seq<Row>>): Option<i64>
    requires gs != [] && gs[0] != []
  {
    if |gs| == 1 then None else gs[0][0].ts
  }

  /** Convert the runs one by one, anchored on the first, under the shared ceilings. */
  function TapeOf(gs: seq<seq<Row>>, lim: Limits): Result<seq<ChainSnapshot>, Error>
    requires forall i | 0 <= i < |gs| :: gs[i] != []
  {
    if gs == [] then Ok([])
    else
      var tape :- TapeOf(Init(gs), lim);
      var g :- Build(Last(gs), lim);
      PushGroup(tape, AnchorBefore(gs), g, lim)
  }

  /** Run by run the step strictly increases. */
  predicate Ascending(gs: seq<seq<Row>>)
    requires forall i | 0 <= i < |gs| :: gs[i] != []
  {
    forall i | 0 < i < |gs| :: StepBefore(gs[i - 1][0], gs[i][0])
  }

  predicate StepBefore(a: Row, b: Row)
  {
    a.step.Some? && b.step.Some? && a.step.value < b.step.value
  }

  lemma {:induction false} GroupsPartition(rows: seq<Row>)
    ensures Concat(Groups(rows)) == rows
    ensures forall i, k | 0 <= i < |Groups(rows)| && 0 <= k < |Groups(rows)[i]| ::
              Groups(rows)[i][k].step == Groups(rows)[i][0].step
  {
    if rows != [] {
      var gs, gs' := Groups(Init(rows)), Groups(rows);
      GroupsPartition(Init(rows));
      if gs' == gs + [[Last(rows)]] {
        assert Init(gs') == gs;
      } else {
        assert Init(gs') == Init(gs);
        assert Last(Last(gs)) == Last(gs)[|Last(gs)| - 1];
      }
    }
  }

  lemma {:induction false} BuildFacts(g: seq<Row>, lim: Limits)
    requires g != [] && Build(g, lim).Ok?
    ensures var b := Build(g, lim).value;
            && g[0].step == Some(b.header.stepRaw) && g[0].ts == Some(b.header.ts)
            && b.header.step == b.header.stepRaw
            && |b.quotes| == |g| <= lim.maxContractsPerSnapshot
            && ValidTicker(b.header.underlying)
  {
    hide RowQuote;
    if |g| > 1 {
      BuildFacts(Init(g), lim);
    }
  }

  // ---- The stream refines the grouping ------------------------------------

  /** The stream survives rows with these runs: all but the last run pushed, the last one built. */
  ghost predicate Streams(gs: seq<seq<Row>>, lim: Limits)
    requires gs != [] && forall i | 0 <= i < |gs| :: gs[i] != []
  {
    Ascending(gs) && TapeOf(Init(gs), lim).Ok? && Build(Last(gs), lim).Ok?
  }

  ghost function StreamOf(gs: seq<seq<Row>>, lim: Limits): Stream
    requires gs != [] && (forall i | 0 <= i < |gs| :: gs[i] != []) && Streams(gs, lim)
  {
    Stream(TapeOf(Init(gs), lim).value, AnchorBefore(gs), Some(Build(Last(gs), lim).value), Last(gs)[0].step)
  }

  lemma {:induction false} FirstBuilds(gs: seq<seq<Row>>, lim: Limits)
    requires gs != [] && (forall i | 0 <= i < |gs| :: gs[i] != []) && TapeOf(gs, lim).Ok?
    ensures gs[0][0].ts.Some?
  {
    hide PushGroup, Build;
    if |gs| == 1 {
      BuildFacts(gs[0], lim);
    } else {
      FirstBuilds(Init(gs), lim);
    }
  }

  lemma ExtendsGroup(gs: seq<seq<Row>>, r: Row, lim: Limits)
    requires gs != [] && forall i | 0 <= i < |gs| :: gs[i] != []
    requires Last(gs)[0].step == r.step
    ensures var gs' := Init(gs) + [Last(gs) + [r]];
            && (Streams(gs', lim) <==> Streams(gs, lim) && Feed(StreamOf(gs, lim), r, lim).Ok?)
            && (Streams(gs', lim) ==> Feed(StreamOf(gs, lim), r, lim) == Ok(StreamOf(gs', lim)))
  {
    hide PushRow, Start, PushGroup;
    var g := Last(gs) + [r];
    var gs' := Init(gs) + [g];
    assert Init(gs') == Init(gs) && Init(g) == Last(gs);
    assert Ascending(gs') <==> Ascending(gs) by {
      assert forall i | 0 <= i < |gs| :: gs'[i][0] == gs[i][0];
    }
    if Build(Last(gs), lim).Ok? {
      BuildFacts(Last(gs), lim);
    }
  }

  lemma OpensGroup(gs: seq<seq<Row>>, r: Row, lim: Limits)
    requires gs != [] && forall i | 0 <= i < |gs| :: gs[i] != []
    requires Last(gs)[0].step != r.step
    ensures var gs' := gs + [[r]];
            && (Streams(gs', lim) <==> Streams(gs, lim) && Feed(StreamOf(gs, lim), r, lim).Ok?)
            && (Streams(gs', lim) ==> Feed(StreamOf(gs, lim), r, lim) == Ok(StreamOf(gs', lim)))
  {
    hide PushRow, Start, PushGroup;
    var gs' := gs + [[r]];
    assert Init(gs') == gs;
    assert Ascending(gs') <==> Ascending(gs) && StepBefore(Last(gs)[0], r) by {
      assert forall i | 0 <= i < |gs| :: gs'[i][0] == gs[i][0];
      assert gs'[|gs|][0] == r;
    }
    if Streams(gs, lim) && |gs| > 1 {
      FirstBuilds(Init(gs), lim);
    }
    if Build(Last(gs), lim).Ok? {
      BuildFacts(Last(gs), lim);
    }
  }

  lemma FirstRow(r: Row, lim: Limits)
    ensures Feed(EMPTY, r, lim).Ok? <==> Streams([[r]], lim)
    ensures Streams([[r]], lim) ==> Feed(EMPTY, r, lim) == Ok(StreamOf([[r]], lim))
  {
    hide PushRow, Start;
    assert Init([[r]]) == [];
  }

  lemma FeedAllStep(rows: seq<Row>, lim: Limits)
    requires rows != []
    ensures FeedAll(Init(rows), lim).Ok? ==> FeedAll(rows, lim) == Feed(FeedAll(Init(rows), lim).value, Last(rows), lim)
    ensures FeedAll(Init(rows), lim).Err? ==> FeedAll(rows, lim).Err?
  {
    hide Feed;
  }

  lemma GroupsStep(rows: seq<Row>)
    requires rows != []
    ensures Init(rows) == [] ==> Groups(rows) == [[Last(rows)]]
    ensures Init(rows) != [] ==>
            var gs, r := Groups(Init(rows)), Last(rows);
            Groups(rows) == if Last(gs)[0].step == r.step then Init(gs) + [Last(gs) + [r]] else gs + [[r]]
  {
    GroupsPartition(Init(rows));
    if Init(rows) != [] {
      var gs := Groups(Init(rows));
      var g := Last(gs);
      assert g == gs[|gs| - 1] && Last(g) == gs[|gs| - 1][|g| - 1];
    }
  }

  /** After any rows the stream is alive exactly when their runs are, and holds what they say. */
  lemma {:induction false} StreamIsGrouping(rows: seq<Row>, lim: Limits)
    requires rows != []
    ensures FeedAll(rows, lim).Ok? <==> Streams(Groups(rows), lim)
    ensures FeedAll(rows, lim).Ok? ==> FeedAll(rows, lim).value == StreamOf(Groups(rows), lim)
  {
    hide Feed, FeedAll, Groups, Streams, StreamOf;
    var init, r := Init(rows), Last(rows);
    FeedAllStep(rows, lim);
    GroupsStep(rows);
    if init == [] {
      assert FeedAll(init, lim) == Ok(EMPTY) by { FeedNone(lim); }
      FirstRow(r, lim);
    } else {
      StreamIsGrouping(init, lim);
      var gs := Groups(init);
      var g: seq<Row> := Last(gs);
      if g[0].step == r.step {
        ExtendsGroup(gs, r, lim);
      } else {
        OpensGroup(gs, r, lim);
      }
    }
  }

  lemma FeedNone(lim: Limits)
    ensures FeedAll([], lim) == Ok(EMPTY)
  {
  }

  /**
   The whole feed: it materialises exactly when the runs ascend, each run
   builds and converts within the ceilings, and the snapshots are well
   sequenced; the tape is the runs converted in order.
   */
  lemma MaterialiseIsGrouping(rows: seq<Row>, lim: Limits)
    ensures var gs := Groups(rows);
            Materialise(rows, lim).Ok? <==>
            gs != [] && Ascending(gs) && TapeOf(gs, lim).Ok? && WellSequenced(TapeOf(gs, lim).value)
    ensures Materialise(rows, lim).Ok? ==> Materialise(rows, lim) == TapeOf(Groups(rows), lim)
  {
    hide Feed, PushGroup, Build;
    var gs := Groups(rows);
    if rows == [] {
      assert FeedAll(rows, lim) == Ok(EMPTY);
    } else {
      StreamIsGrouping(rows, lim);
      if Streams(gs, lim) {
        var st := StreamOf(gs, lim);
        assert Flush(st, lim).Ok? <==> TapeOf(gs, lim).Ok?;
        if TapeOf(gs, lim).Ok? {
          SequenceComplete(TapeOf(gs, lim).value);
          assert |TapeOf(gs, lim).value| > 0 by { hide *; TapeLength(gs, lim); }
        }
      }
    }
  }

  lemma {:induction false} TapeLength(gs: seq<seq<Row>>, lim: Limits)
    requires (forall i | 0 <= i < |gs| :: gs[i] != []) && TapeOf(gs, lim).Ok?
    ensures |TapeOf(gs, lim).value| == |gs|
  {
    hide Finish, Build;
    if gs != [] {
      TapeLength(Init(gs), lim);
    }
  }

  // ---- What a materialised tape is ----------------------------------------

  /** A run becomes one snapshot with its step and one quote per row. */
  lemma SnapshotOfRun(g: seq<Row>, anchor: i64, lim: Limits)
    requires g != [] && Build(g, lim).Ok? && Finish(Build(g, lim).value, anchor).Ok?
    ensures var s := Finish(Build(g, lim).value, anchor).value;
            && g[0].step == Some(s.step) && g[0].ts == Some(s.ts) && |s.quotes| == |g|
            && |s.quotes| <= lim.maxContractsPerSnapshot
  {
    BuildFacts(g, lim);
    var b := Build(g, lim).value;
    var h := b.header;
    var meta := SnapshotMeta(h.ts, h.step, anchor, h.underlying, h.underlyingPrice, h.tick, h.multiplier);
    hide Build, ConvertQuote, AddQuotes;
    QuoteOrderIrrelevant(meta, b.quotes, b.quotes);
  }

  /** The snapshot `s` is what became of the run `g`. */
  predicate FromRun(s: ChainSnapshot, g: seq<Row>, lim: Limits)
    requires g != []
  {
    && g[0].step == Some(s.step) && g[0].ts == Some(s.ts)
    && |s.quotes| == |g| && |s.quotes| <= lim.maxContractsPerSnapshot
  }

  /** The last run of a tape that fits: one more snapshot, within every ceiling. */
  lemma LastRun(gs: seq<seq<Row>>, lim: Limits)
    requires (forall i | 0 <= i < |gs| :: gs[i] != []) && gs != [] && TapeOf(gs, lim).Ok?
    ensures TapeOf(Init(gs), lim).Ok?
    ensures var tape := TapeOf(gs, lim).value;
            && tape != [] && Init(tape) == TapeOf(Init(gs), lim).value
            && FromRun(Last(tape), Last(gs), lim) && WithinBudget(tape, lim)
  {
    hide Build, Finish;
    var tape0, b := TapeOf(Init(gs), lim).value, Build(Last(gs), lim).value;
    var anchor := AnchorFor(AnchorBefore(gs), b);
    SnapshotOfRun(Last(gs), anchor, lim);
    var tape := TapeOf(gs, lim).value;
    assert tape == tape0 + [Finish(b, anchor).value];
    assert Init(tape) == tape0;
  }

  lemma {:induction false} TapeRuns(gs: seq<seq<Row>>, lim: Limits)
    requires (forall i | 0 <= i < |gs| :: gs[i] != []) && TapeOf(gs, lim).Ok?
    ensures var tape := TapeOf(gs, lim).value;
            && FromRuns(tape, gs, lim) && QuoteCount(tape) == |Concat(gs)|
            && (gs != [] ==> WithinBudget(tape, lim))
  {
    if gs == [] {
    } else {
      hide TapeOf, WithinBudget, FromRun, FromRuns, QuoteCount, Concat;
      LastRun(gs, lim);
      TapeRuns(Init(gs), lim);
      var tape := TapeOf(gs, lim).value;
      LastRunCounts(gs, tape, lim);
      LastRunFollows(gs, tape, lim);
    }
  }

  ghost predicate FromRuns(tape: seq<ChainSnapshot>, gs: seq<seq<Row>>, lim: Limits)
    requires forall i | 0 <= i < |gs| :: gs[i] != []
  {
    |tape| == |gs| && forall i | 0 <= i < |gs| :: FromRun(tape[i], gs[i], lim)
  }

  lemma LastRunFollows(gs: seq<seq<Row>>, tape: seq<ChainSnapshot>, lim: Limits)
    requires (forall i | 0 <= i < |gs| :: gs[i] != []) && gs != [] && tape != []
    requires FromRuns(Init(tape), Init(gs), lim) && FromRun(Last(tape), Last(gs), lim)
    ensures FromRuns(tape, gs, lim)
  {
    hide FromRun;
    assert forall i | 0 <= i < |gs| - 1 :: gs[i] == Init(gs)[i] && tape[i] == Init(tape)[i];
  }

  lemma LastRunCounts(gs: seq<seq<Row>>, tape: seq<ChainSnapshot>, lim: Limits)
    requires gs != [] && tape != [] && Last(gs) != [] && FromRun(Last(tape), Last(gs), lim)
    requires QuoteCount(Init(tape)) == |Concat(Init(gs))|
    ensures QuoteCount(tape) == |Concat(gs)|
  {
  }

  /**
   One snapshot per step from 0, in strictly increasing time over every pair,
   every row kept as one quote of the snapshot of its step, all ceilings met.
   */
  lemma MaterialisedTape(rows: seq<Row>, lim: Limits)
    requires Materialise(rows, lim).Ok?
    ensures var tape := Materialise(rows, lim).value;
            && WellSequenced(tape) && QuoteCount(tape) == |rows| && WithinBudget(tape, lim)
            && |tape| == |Groups(rows)|
    ensures var tape := Materialise(rows, lim).value;
            forall i | 0 <= i < |tape| ::
              && |tape[i].quotes| == |Groups(rows)[i]| <= lim.maxContractsPerSnapshot
              && forall k | 0 <= k < |Groups(rows)[i]| :: Groups(rows)[i][k].step == Some(i)
  {
    hide Materialise, TapeOf, Groups;
    MaterialiseIsGrouping(rows, lim);
    GroupsPartition(rows);
    TapeRuns(Groups(rows), lim);
  }

  // ---- What a file is, cell by cell ---------------------------------------

  /** "call" in any letter case. */
  predicate SaysCall(s: string)
  {
    |s| == 4 && s[0] in "cC" && s[1] in "aA" && s[2] in "lL" && s[3] in "lL"
  }

  /** "put" in any letter case. */
  predicate SaysPut(s: string)
  {
    |s| == 3 && s[0] in "pP" && s[1] in "uU" && s[2] in "tT"
  }

  predicate StyleIs(cell: Option<string>, style: Style)
  {
    cell.Some? && if style.Call? then SaysCall(cell.value) else SaysPut(cell.value)
  }

  lemma ParsesStyle(s: string, style: Style)
    ensures ParseStyle(s) == Ok(style) <==> StyleIs(Some(s), style)
  {
    if |s| == 4 {
      assert EqIgnoreCase(s, "call") <==>
             LowerChar(s[0]) == 'c' && LowerChar(s[1]) == 'a' && LowerChar(s[2]) == 'l' && LowerChar(s[3]) == 'l';
    } else if |s| == 3 {
      assert EqIgnoreCase(s, "put") <==> LowerChar(s[0]) == 'p' && LowerChar(s[1]) == 'u' && LowerChar(s[2]) == 't';
    }
  }

  /** The entry holds the cells of the row. */
  predicate Holds(e: Entry, r: Row, tick: nat)
    requires tick > 0
  {
    && r.underlying == Some(e.key.underlying) && e.key.expiration.DateTime? && r.expiration == Some(e.key.expiration.ns)
    && r.strike == Some(e.key.strike) && StyleIs(r.style, e.key.style) && e.view.contract == e.key
    && r.bid == Some(e.view.bid) && r.ask == Some(e.view.ask) && WellPriced(e, tick)
    && r.bidSize == Some(e.view.bidSize) && r.askSize == Some(e.view.askSize)
    && e.view.bidSize > 0 && e.view.askSize > 0
    && r.iv == Some(Finite(e.view.iv)) && GreekIs(r.delta, e.view.delta) && GreekIs(r.gamma, e.view.gamma)
    && GreekIs(r.theta, e.view.theta) && GreekIs(r.vega, e.view.vega)
  }

  /** The row repeats the header of the snapshot. */
  predicate Heads(s: ChainSnapshot, r: Row)
  {
    && r.step == Some(s.step) && r.ts == Some(s.ts) && r.underlying == Some(s.underlying)
    && r.underlyingPrice == Some(s.underlyingPrice) && r.tick == Some(s.tick) && r.multiplier == Some(s.multiplier)
  }

  /** Two rows that name one contract. */
  predicate SameContract(a: Row, b: Row)
  {
    a.expiration == b.expiration && a.strike == b.strike &&
    exists style: Style :: StyleIs(a.style, style) && StyleIs(b.style, style)
  }

  ghost predicate RowKept(s: ChainSnapshot, r: Row)
    requires s.tick > 0
  {
    exists i :: 0 <= i < |s.quotes| && Holds(s.quotes[i], r, s.tick)
  }

  ghost predicate EntryRead(e: Entry, g: seq<Row>, tick: nat)
    requires tick > 0
  {
    exists k :: 0 <= k < |g| && Holds(e, g[k], tick)
  }

  /** The snapshot is the run: its header on every row, an entry for every row and nothing else, no contract twice. */
  ghost predicate RunIs(g: seq<Row>, lim: Limits, s: ChainSnapshot)
  {
    && |g| <= lim.maxContractsPerSnapshot && (forall k | 0 <= k < |g| :: Heads(s, g[k]))
    && ValidTicker(s.underlying) && s.tick > 0 && s.multiplier > 0
    && StrictlySortedBy(s.quotes, EntryKey)
    && (forall k | 0 <= k < |g| :: RowKept(s, g[k]))
    && (forall i | 0 <= i < |s.quotes| :: EntryRead(s.quotes[i], g, s.tick))
    && forall k, l | 0 <= k < l < |g| :: !SameContract(g[k], g[l])
  }

  /** The quote holds the cells of the row. */
  predicate Read(raw: RawQuote, r: Row)
  {
    && raw.expiration.DateTime? && r.expiration == Some(raw.expiration.ns)
    && r.strike == Some(raw.strike) && StyleIs(r.style, raw.style) && r.bid == Some(raw.bid) && r.ask == Some(raw.ask)
    && r.bidSize == Some(raw.bidSize) && r.askSize == Some(raw.askSize) && raw.bidSize > 0 && raw.askSize > 0
    && r.iv == Some(raw.iv) && raw.delta == (if r.delta.Some? then r.delta.value else NO_GREEK)
    && raw.gamma == (if r.gamma.Some? then r.gamma.value else NO_GREEK)
    && raw.theta == (if r.theta.Some? then r.theta.value else NO_GREEK)
    && raw.vega == (if r.vega.Some? then r.vega.value else NO_GREEK)
  }

  lemma RowReads(r: Row, raw: RawQuote)
    ensures RowQuote(r) == Ok(raw) <==> Read(raw, r)
  {
    hide ParseStyle, StyleIs;
    if r.style.Some? {
      ParsesStyle(r.style.value, raw.style);
    }
    assert r.style.None? ==> !StyleIs(r.style, raw.style) by { NoStyle(r.style, raw.style); }
  }

  lemma NoStyle(cell: Option<string>, style: Style)
    ensures cell.None? ==> !StyleIs(cell, style)
  {
  }

  lemma ReadHolds(r: Row, raw: RawQuote, meta: SnapshotMeta, e: Entry)
    requires Read(raw, r) && meta.tick > 0 && r.underlying == Some(meta.underlying)
    ensures Becomes(meta, raw, e) <==> Holds(e, r, meta.tick)
  {
    hide WellPriced;
    if StyleIs(r.style, e.key.style) {
      OneStyle(r.style, raw.style, e.key.style);
    }
  }

  lemma OneStyle(cell: Option<string>, a: Style, b: Style)
    requires StyleIs(cell, a) && StyleIs(cell, b)
    ensures a == b
  {
  }

  /** A held row reads. */
  lemma HeldReads(r: Row, e: Entry, tick: nat) returns (raw: RawQuote)
    requires tick > 0 && Holds(e, r, tick)
    ensures Read(raw, r)
  {
    hide WellPriced;
    raw := RawQuote(e.key.expiration, e.key.strike, e.key.style, e.view.bid, e.view.ask, e.view.bidSize, e.view.askSize,
                    r.iv.value, Greek(r.delta), Greek(r.gamma), Greek(r.theta), Greek(r.vega));
  }

  /** The header repeats on the row. */
  predicate Repeats(h: Header, r: Row)
  {
    && r.ts == Some(h.ts) && r.underlying == Some(h.underlying) && r.underlyingPrice == Some(h.underlyingPrice)
    && r.tick == Some(h.tick) && r.multiplier == Some(h.multiplier)
  }

  /** A run builds exactly when its first row makes a header that every row repeats, and every row reads. */
  ghost predicate Builds(g: seq<Row>, lim: Limits, b: Group)
    requires g != []
  {
    var h := b.header;
    && g[0].step == Some(h.stepRaw) && h.step == h.stepRaw && ValidTicker(h.underlying)
    && |b.quotes| == |g| <= lim.maxContractsPerSnapshot
    && forall k | 0 <= k < |g| :: Repeats(h, g[k]) && Read(b.quotes[k], g[k])
  }

  lemma {:induction false} BuildIff(g: seq<Row>, lim: Limits, b: Group)
    requires g != []
    ensures Build(g, lim) == Ok(b) <==> Builds(g, lim, b)
  {
    hide RowQuote, Read;
    var r, n := Last(g), |g| - 1;
    if |b.quotes| == |g| {
      RowReads(r, b.quotes[n]);
      assert b.quotes == b.quotes[..n] + [b.quotes[n]];
    }
    if RowQuote(r).Ok? {
      RowReads(r, RowQuote(r).value);
    }
    if |g| == 1 {
      StartIff(r, b.header);
    } else {
      if |b.quotes| == |g| {
        BuildIff(Init(g), lim, Group(b.header, b.quotes[..n]));
      }
      if Build(Init(g), lim).Ok? {
        BuildIff(Init(g), lim, Build(Init(g), lim).value);
      }
    }
  }

  lemma StartIff(r: Row, h: Header)
    ensures r.step.Some? && Start(r, r.step.value) == Ok(h) <==>
            r.step == Some(h.stepRaw) && h.step == h.stepRaw && ValidTicker(h.underlying) && Repeats(h, r)
  {
  }

  /** Rows and entries correspond exactly when the quotes of the rows and the entries do. */
  lemma RowsCorrespond(g: seq<Row>, meta: SnapshotMeta, quotes: seq<RawQuote>, s: ChainSnapshot)
    requires meta.tick == s.tick > 0 && |quotes| == |g|
    requires forall k | 0 <= k < |g| :: Read(quotes[k], g[k]) && g[k].underlying == Some(meta.underlying)
    ensures Correspond(meta, quotes, s.quotes) <==>
            && (forall k | 0 <= k < |g| :: RowKept(s, g[k]))
            && (forall i | 0 <= i < |s.quotes| :: EntryRead(s.quotes[i], g, s.tick))
  {
    hide Becomes, Holds, Read;
    forall k, e | 0 <= k < |g| ensures Becomes(meta, quotes[k], e) <==> Holds(e, g[k], s.tick) {
      ReadHolds(g[k], quotes[k], meta, e);
    }
    forall k | 0 <= k < |g| ensures HasEntry(meta, quotes[k], s.quotes) <==> RowKept(s, g[k]) {
    }
    forall e ensures HasQuote(meta, quotes, e) <==> EntryRead(e, g, s.tick) {
      if HasQuote(meta, quotes, e) {
        var k :| 0 <= k < |quotes| && Becomes(meta, quotes[k], e);
        assert Holds(e, g[k], s.tick);
      }
      if EntryRead(e, g, s.tick) {
        var k :| 0 <= k < |g| && Holds(e, g[k], s.tick);
        assert Becomes(meta, quotes[k], e);
      }
    }
  }

  lemma KeysOfRows(a: Row, b: Row, meta: SnapshotMeta, ra: RawQuote, rb: RawQuote, x: Entry, y: Entry)
    requires Read(ra, a) && Read(rb, b) && meta.tick > 0 && Becomes(meta, ra, x) && Becomes(meta, rb, y)
    ensures x.key == y.key <==> SameContract(a, b)
  {
    hide WellPriced, StyleIs;
    assert StyleIs(a.style, ra.style) && StyleIs(b.style, rb.style);
    if SameContract(a, b) {
      var style: Style :| StyleIs(a.style, style) && StyleIs(b.style, style);
      OneStyle(a.style, style, ra.style);
      OneStyle(b.style, style, rb.style);
    }
  }

  lemma RowsDistinct(g: seq<Row>, meta: SnapshotMeta, quotes: seq<RawQuote>, s: ChainSnapshot)
    requires meta.tick > 0 && |quotes| == |g| && Correspond(meta, quotes, s.quotes)
    requires forall k | 0 <= k < |g| :: Read(quotes[k], g[k])
    ensures OneQuoteEach(meta, quotes) <==> forall k, l | 0 <= k < l < |g| :: !SameContract(g[k], g[l])
  {
    hide Becomes, Read, SameContract, Correspond;
    forall k, l, a, b | 0 <= k < l < |quotes| && Becomes(meta, quotes[k], a) && Becomes(meta, quotes[l], b)
      ensures a.key == b.key <==> SameContract(g[k], g[l])
    {
      KeysOfRows(g[k], g[l], meta, quotes[k], quotes[l], a, b);
    }
    if OneQuoteEach(meta, quotes) {
      forall k, l | 0 <= k < l < |g| ensures !SameContract(g[k], g[l]) {
        var i := PlaceOf(meta, quotes, s.quotes, k);
        var j := PlaceOf(meta, quotes, s.quotes, l);
        assert s.quotes[i].key != s.quotes[j].key;
      }
    }
  }

  /** A run of rows of one step builds and converts to a snapshot exactly when the snapshot is the run. */
  lemma RunIff(g: seq<Row>, anchor: i64, lim: Limits, s: ChainSnapshot)
    requires g != [] && forall k | 0 <= k < |g| :: g[k].step == g[0].step
    ensures Build(g, lim).Ok? && Finish(Build(g, lim).value, anchor) == Ok(s) <==> RunIs(g, lim, s)
  {
    hide Build, Read, Snapshot, Correspond, OneQuoteEach, RowKept, EntryRead, SameContract;
    match Build(g, lim) {
      case Ok(b) =>
        BuildIff(g, lim, b);
        BuiltIff(g, anchor, lim, b, s);
      case Err(_) =>
        if RunIs(g, lim, s) {
          var b := RunBuilds(g, lim, s);
          BuildIff(g, lim, b);
        }
    }
  }

  lemma BuiltIff(g: seq<Row>, anchor: i64, lim: Limits, b: Group, s: ChainSnapshot)
    requires g != [] && (forall k | 0 <= k < |g| :: g[k].step == g[0].step) && Builds(g, lim, b)
    ensures Finish(b, anchor) == Ok(s) <==> RunIs(g, lim, s)
  {
    hide Read, Snapshot, Correspond, OneQuoteEach, RowKept, EntryRead, SameContract;
    var h := b.header;
    var meta := SnapshotMeta(h.ts, h.step, anchor, h.underlying, h.underlyingPrice, h.tick, h.multiplier);
    SnapshotIff(meta, b.quotes, s);
    assert Heads(s, g[0]) ==> s.ts == meta.ts && s.step == meta.step && s.underlying == meta.underlying
                              && s.underlyingPrice == meta.underlyingPrice && s.tick == meta.tick
                              && s.multiplier == meta.multiplier;
    if meta.tick == s.tick > 0 {
      RowsCorrespond(g, meta, b.quotes, s);
      if Correspond(meta, b.quotes, s.quotes) {
        RowsDistinct(g, meta, b.quotes, s);
      }
    }
  }

  lemma RunBuilds(g: seq<Row>, lim: Limits, s: ChainSnapshot) returns (b: Group)
    requires g != [] && RunIs(g, lim, s)
    ensures Builds(g, lim, b)
  {
    hide Read, RowKept, EntryRead, SameContract, StrictlySortedBy;
    var quotes := RowsRead(g, s);
    assert Heads(s, g[0]);
    b := Group(Header(g[0].step.value, s.step, s.ts, s.underlying, s.underlyingPrice, s.tick, s.multiplier), quotes);
  }

  lemma {:induction false} RowsRead(g: seq<Row>, s: ChainSnapshot) returns (quotes: seq<RawQuote>)
    requires s.tick > 0 && forall k | 0 <= k < |g| :: RowKept(s, g[k])
    ensures |quotes| == |g| && forall k | 0 <= k < |g| :: Read(quotes[k], g[k])
  {
    hide Read, Holds;
    quotes := [];
    if g != [] {
      var init := RowsRead(Init(g), s);
      assert RowKept(s, Last(g));
      var i :| 0 <= i < |s.quotes| && Holds(s.quotes[i], Last(g), s.tick);
      var raw := HeldReads(Last(g), s.quotes[i], s.tick);
      quotes := init + [raw];
    }
  }

  // ---- The file as a whole ------------------------------------------------

  ghost predicate RunsAre(gs: seq<seq<Row>>, lim: Limits, tape: seq<ChainSnapshot>)
  {
    |tape| == |gs| && forall i | 0 <= i < |gs| :: RunIs(gs[i], lim, tape[i])
  }

  lemma RunsSnoc(gs: seq<seq<Row>>, lim: Limits, tape: seq<ChainSnapshot>)
    requires gs != [] && tape != []
    ensures RunsAre(gs, lim, tape) <==> RunsAre(Init(gs), lim, Init(tape)) && RunIs(Last(gs), lim, Last(tape))
  {
    hide RunIs;
    assert |tape| == |gs| ==> forall i | 0 <= i < |gs| - 1 :: gs[i] == Init(gs)[i] && tape[i] == Init(tape)[i];
  }

  ghost predicate OneStepEach(gs: seq<seq<Row>>)
  {
    forall i | 0 <= i < |gs| :: gs[i] != [] && forall k | 0 <= k < |gs[i]| :: gs[i][k].step == gs[i][0].step
  }

  lemma {:induction false} TapeIff(gs: seq<seq<Row>>, lim: Limits, tape: seq<ChainSnapshot>)
    requires OneStepEach(gs)
    ensures TapeOf(gs, lim) == Ok(tape) <==> RunsAre(gs, lim, tape) && WithinBudget(tape, lim)
  {
    hide Build, Finish, RunIs, RunsAre, WithinBudget, Push;
    if gs == [] {
      NoRuns(lim, tape);
    } else {
      assert OneStepEach(Init(gs)) by { InitOneStep(gs); }
      var before := TapeOf(Init(gs), lim);
      if before.Ok? {
        TapeIff(Init(gs), lim, before.value);
      }
      if tape != [] {
        var init, s := Init(tape), Last(tape);
        assert tape == init + [s];
        RunsSnoc(gs, lim, tape);
        TapeIff(Init(gs), lim, init);
        BudgetOfInit(tape, lim);
        LastIff(gs, lim, init, s);
      } else {
        RunsCount(gs, lim, tape);
      }
      if TapeOf(gs, lim).Ok? {
        TapeGrows(gs, lim);
      }
    }
  }

  lemma InitOneStep(gs: seq<seq<Row>>)
    requires OneStepEach(gs) && gs != []
    ensures OneStepEach(Init(gs))
  {
    assert forall i | 0 <= i < |gs| - 1 :: Init(gs)[i] == gs[i];
  }

  lemma NoRuns(lim: Limits, tape: seq<ChainSnapshot>)
    ensures tape == [] <==> RunsAre([], lim, tape) && WithinBudget(tape, lim)
  {
  }

  lemma RunsCount(gs: seq<seq<Row>>, lim: Limits, tape: seq<ChainSnapshot>)
    ensures RunsAre(gs, lim, tape) ==> |tape| == |gs|
  {
  }

  lemma BudgetOfInit(tape: seq<ChainSnapshot>, lim: Limits)
    requires tape != []
    ensures WithinBudget(tape, lim) ==> WithinBudget(Init(tape), lim)
  {
    hide WithinBudget;
    if WithinBudget(tape, lim) {
      BudgetOfPrefix(tape, |tape| - 1, lim);
    }
  }

  lemma TapeGrows(gs: seq<seq<Row>>, lim: Limits)
    requires (forall i | 0 <= i < |gs| :: gs[i] != []) && gs != [] && TapeOf(gs, lim).Ok?
    ensures TapeOf(gs, lim).value != [] && TapeOf(Init(gs), lim) == Ok(Init(TapeOf(gs, lim).value))
  {
    hide Build, Finish;
    var tape0, b := TapeOf(Init(gs), lim).value, Build(Last(gs), lim).value;
    var s := Finish(b, AnchorFor(AnchorBefore(gs), b)).value;
    assert TapeOf(gs, lim).value == tape0 + [s];
    assert Init(tape0 + [s]) == tape0;
  }

  lemma LastIff(gs: seq<seq<Row>>, lim: Limits, init: seq<ChainSnapshot>, s: ChainSnapshot)
    requires OneStepEach(gs) && gs != []
    ensures TapeOf(gs, lim) == Ok(init + [s]) <==>
            TapeOf(Init(gs), lim) == Ok(init) && RunIs(Last(gs), lim, s) && WithinBudget(init + [s], lim)
  {
    hide Build, Finish, RunIs, WithinBudget, Push;
    var tape := init + [s];
    assert Init(tape) == init && Last(tape) == s;
    match (TapeOf(Init(gs), lim), Build(Last(gs), lim)) {
      case (Ok(tape0), Ok(b)) =>
        var anchor := AnchorFor(AnchorBefore(gs), b);
        RunIff(Last(gs), anchor, lim, s);
        if Finish(b, anchor).Ok? {
          PushIff(tape0, Finish(b, anchor).value, lim);
          assert tape0 + [Finish(b, anchor).value] == init + [s] <==> tape0 == init && Finish(b, anchor).value == s;
        }
      case (Ok(_), Err(_)) =>
        RunIff(Last(gs), 0, lim, s);
      case _ =>
    }
  }

  /**
   What a file is, both ways: it materialises to `tape` exactly when its runs of
   one step are the steps 0, 1, 2, ... in strictly increasing time, each snapshot
   of `tape` is its run cell by cell, and the tape is within the budget.
   */
  lemma FileIff(rows: seq<Row>, lim: Limits, tape: seq<ChainSnapshot>)
    ensures Materialise(rows, lim) == Ok(tape) <==>
            && tape != [] && RunsAre(Groups(rows), lim, tape) && WithinBudget(tape, lim)
            && (forall i | 0 <= i < |tape| :: tape[i].step == i)
            && (forall i, j | 0 <= i < j < |tape| :: tape[i].ts < tape[j].ts)
  {
    hide Materialise, TapeOf, Groups, RunIs, WithinBudget;
    var gs := Groups(rows);
    MaterialiseIsGrouping(rows, lim);
    GroupsPartition(rows);
    TapeIff(gs, lim, tape);
    if gs != [] && RunsAre(gs, lim, tape) && forall i | 0 <= i < |tape| :: tape[i].step == i {
      forall i | 0 < i < |gs| ensures StepBefore(gs[i - 1][0], gs[i][0]) {
        RunStep(gs[i - 1], lim, tape[i - 1]);
        RunStep(gs[i], lim, tape[i]);
      }
    }
  }

  lemma RunStep(g: seq<Row>, lim: Limits, s: ChainSnapshot)
    requires g != [] && RunIs(g, lim, s)
    ensures g[0].step == Some(s.step)
  {
  }
}
