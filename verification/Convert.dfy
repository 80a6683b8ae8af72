/** The single validation boundary every feed converts its quotes through (src/data/convert.rs). */
module Convert {
  import opened Common
  import opened Sorting
  import opened Market
  import opened Rounding

  const NANOS_PER_DAY := 86_400_000_000_000

  /** What `f64` analytics convert to: a decimal, or no decimal at all. */
  datatype Analytic = NonFinite | OutOfRange | Finite(value: Decimal)

  datatype RawQuote = RawQuote(
    expiration: Expiration, strike: u64, style: Style, bid: u64, ask: u64, bidSize: u32, askSize: u32,
    iv: Analytic, delta: Analytic, gamma: Analytic, theta: Analytic, vega: Analytic)

  datatype SnapshotMeta = SnapshotMeta(
    ts: i64, step: u32, anchorTs: i64, underlying: string, underlyingPrice: u64, tick: u64, multiplier: u32)

  function AnalyticToDecimal(a: Analytic): Result<Decimal, Error>
  {
    match a
    case Finite(d) => Ok(d)
    case _ => Err(Conversion)
  }

  /** `value - value % tick` (`FloorIsDifference`), counted up tick by tick. */
  function FloorToTick(value: nat, tick: u64): nat
    requires tick > 0
  {
    if value < tick then 0 else tick + FloorToTick(value - tick, tick)
  }

  lemma {:induction false} FloorIsDifference(value: nat, tick: u64)
    requires tick > 0
    ensures FloorToTick(value, tick) == value - Remainder(value, tick)
    decreases value
  {
    if value >= tick {
      FloorIsDifference(value - tick, tick);
    }
  }

  function CheckTickAligned(price: u64, tick: u64): Result<(), Error>
    requires tick > 0
  {
    if Remainder(price, tick) == 0 then Ok(()) else Err(PriceNotTickAligned)
  }

  /** A relative expiry becomes one instant, anchored on the first timestamp of the tape. */
  function ResolveExpiration(e: Expiration, anchorTs: i64): Result<Expiration, Error>
  {
    match e
    case DateTime(_) => Ok(e)
    case Days(units) =>
      var ns := anchorTs + RoundHalfEven(units as real / UNIT_SCALE as real * NANOS_PER_DAY as real);
      if FitsI64(ns) then Ok(DateTime(ns)) else Err(ArithmeticOverflow)
  }

  /** Validate one quote into the map entry it becomes. */
  function ConvertQuote(meta: SnapshotMeta, raw: RawQuote): Result<Entry, Error>
    requires meta.tick > 0
  {
    if raw.strike == 0 then Err(Conversion) else
    var _ :- CheckTickAligned(raw.strike, meta.tick);
    var _ :- CheckTickAligned(raw.bid, meta.tick);
    var _ :- CheckTickAligned(raw.ask, meta.tick);
    if raw.bid > raw.ask then Err(CrossedQuote) else
    if !FitsU64(raw.bid + raw.ask) then Err(ArithmeticOverflow) else
    FloorIsDifference((raw.bid + raw.ask) / 2, meta.tick);
    var mid := FloorToTick((raw.bid + raw.ask) / 2, meta.tick);
    var iv :- AnalyticToDecimal(raw.iv);
    var delta :- AnalyticToDecimal(raw.delta);
    var gamma :- AnalyticToDecimal(raw.gamma);
    var theta :- AnalyticToDecimal(raw.theta);
    var vega :- AnalyticToDecimal(raw.vega);
    var expiration :- ResolveExpiration(raw.expiration, meta.anchorTs);
    var contract := ContractKey(meta.underlying, expiration, raw.strike, raw.style);
    Ok(Entry(contract, QuoteView(contract, raw.bid, raw.ask, mid, raw.bidSize, raw.askSize,
                                 iv, delta, gamma, theta, vega)))
  }

  /** The documented zero of an absent Greek. */
  const NO_GREEK := Finite(Decimal(0, 0, 0, 0))

  /** The decimal a Greek cell stands for, zero when it is absent. */
  predicate GreekIs(cell: Option<Analytic>, d: Decimal)
  {
    cell == Some(Finite(d)) || (cell.None? && d == Decimal(0, 0, 0, 0))
  }

  /** The prices of an entry: on the grid, not crossed, with a sum the code can form and the midpoint on the grid. */
  predicate WellPriced(e: Entry, tick: nat)
    requires tick > 0
  {
    && e.key.strike > 0 && Remainder(e.key.strike, tick) == 0
    && Remainder(e.view.bid, tick) == 0 && Remainder(e.view.ask, tick) == 0
    && e.view.bid <= e.view.ask && e.view.bid + e.view.ask <= U64_MAX
    && Midpoint(e.view.mid, e.view.bid, e.view.ask, tick)
  }

  type Converter = RawQuote -> Result<Entry, Error>

  function ConverterOf(meta: SnapshotMeta): Converter
    requires meta.tick > 0
  {
    (raw: RawQuote) => ConvertQuote(meta, raw)
  }

  predicate HasKey(entries: seq<Entry>, k: Key)
  {
    exists i | 0 <= i < |entries| :: EntryKey(entries[i]) == k
  }

  /** The loop body: insert, or reject an equal key. */
  function AddQuote(f: Converter, entries: seq<Entry>, raw: RawQuote): Result<seq<Entry>, Error>
  {
    var e :- f(raw);
    if HasKey(entries, EntryKey(e)) then Err(Conversion) else Ok(Insert(e, entries, EntryKey))
  }

  function AddQuotes(f: Converter, quotes: seq<RawQuote>): Result<seq<Entry>, Error>
  {
    if quotes == [] then Ok([])
    else
      var entries :- AddQuotes(f, quotes[..|quotes| - 1]);
      AddQuote(f, entries, quotes[|quotes| - 1])
  }

  /** `raw_quotes_to_snapshot` as a function of its arguments. */
  function Snapshot(meta: SnapshotMeta, quotes: seq<RawQuote>): Result<ChainSnapshot, Error>
  {
    if meta.tick == 0 || meta.multiplier == 0 then Err(Conversion)
    else
      var entries :- AddQuotes(ConverterOf(meta), quotes);
      Ok(ChainSnapshot(meta.ts, meta.step, meta.underlying, meta.underlyingPrice,
                       meta.tick, meta.multiplier, entries))
  }

  lemma {:induction false} FirstErrorStays(f: Converter, quotes: seq<RawQuote>, i: nat)
    requires i <= |quotes| && AddQuotes(f, quotes[..i]).Err?
    ensures AddQuotes(f, quotes) == AddQuotes(f, quotes[..i])
    decreases |quotes|
  {
    if i < |quotes| {
      var init := quotes[..|quotes| - 1];
      assert init[..i] == quotes[..i];
      FirstErrorStays(f, init, i);
    } else {
      assert quotes[..i] == quotes;
    }
  }

  method RawQuotesToSnapshot(meta: SnapshotMeta, quotes: seq<RawQuote>)
    returns (r: Result<ChainSnapshot, Error>)
    ensures r == Snapshot(meta, quotes)
  {
    if meta.tick == 0 || meta.multiplier == 0 {
      return Err(Conversion);
    }
    var f := ConverterOf(meta);
    var entries := [];
    var i := 0;
    while i < |quotes|
      invariant 0 <= i <= |quotes|
      invariant AddQuotes(f, quotes[..i]) == Ok(entries)
    {
      assert quotes[..i + 1][..i] == quotes[..i];
      var added := AddQuote(f, entries, quotes[i]);
      if added.Err? {
        FirstErrorStays(f, quotes, i + 1);
        return Err(added.error);
      }
      entries := added.value;
      i := i + 1;
    }
    assert quotes[..i] == quotes;
    r := Ok(ChainSnapshot(meta.ts, meta.step, meta.underlying, meta.underlyingPrice,
                          meta.tick, meta.multiplier, entries));
  }

  // ---- What a converted snapshot is ---------------------------------------

  /** Every quote converts on its own. */
  ghost predicate EachConverts(f: Converter, quotes: seq<RawQuote>)
  {
    forall i | 0 <= i < |quotes| :: f(quotes[i]).Ok?
  }

  ghost function EntryOf(f: Converter): RawQuote -> Entry
  {
    (raw: RawQuote) => if f(raw).Ok? then f(raw).value else NO_ENTRY
  }

  const NO_ENTRY :=
    var k := ContractKey("", DateTime(0), 0, Call);
    var z := Decimal(0, 0, 0, 0);
    Entry(k, QuoteView(k, 0, 0, 0, 0, 0, z, z, z, z, z))

  ghost function Entries(f: Converter, quotes: seq<RawQuote>): seq<Entry>
  {
    Map(EntryOf(f), quotes)
  }

  lemma HasKeyMultiset(s: seq<Entry>, t: seq<Entry>, k: Key)
    requires multiset(s) == multiset(t) && HasKey(s, k)
    ensures HasKey(t, k)
  {
    var i :| 0 <= i < |s| && EntryKey(s[i]) == k;
    assert s[i] in multiset(s);
    var j := PositionOf(s[i], t);
  }

  lemma DistinctSnoc(es: seq<Entry>, e: Entry)
    ensures DistinctKeys(es + [e], EntryKey) <==> DistinctKeys(es, EntryKey) && !HasKey(es, EntryKey(e))
  {
    var t := es + [e];
    if DistinctKeys(t, EntryKey) {
      forall i, j | 0 <= i < j < |es| ensures EntryKey(es[i]) != EntryKey(es[j]) {
        assert EntryKey(t[i]) != EntryKey(t[j]);
      }
      forall i | 0 <= i < |es| ensures EntryKey(es[i]) != EntryKey(e) {
        assert EntryKey(t[i]) != EntryKey(t[|es|]);
      }
    }
  }

  lemma InsertStrict(e: Entry, m: seq<Entry>)
    requires StrictlySortedBy(m, EntryKey) && !HasKey(m, EntryKey(e))
    ensures StrictlySortedBy(Insert(e, m, EntryKey), EntryKey)
    ensures multiset(Insert(e, m, EntryKey)) == multiset(m + [e])
  {
    var r := Insert(e, m, EntryKey);
    forall i, j | 0 <= i < j < |m|
      ensures !Less(EntryKey(m[j]), EntryKey(m[i])) && EntryKey(m[i]) != EntryKey(m[j])
    {
      LessTrichotomy(EntryKey(m[i]), EntryKey(m[j]));
    }
    InsertKeepsSorted(e, m, EntryKey);
    DistinctSnoc(m, e);
    DistinctSurvivesPermutation(m + [e], r, EntryKey);
    forall i, j | 0 <= i < j < |r| ensures Less(EntryKey(r[i]), EntryKey(r[j])) {
      LessTrichotomy(EntryKey(r[i]), EntryKey(r[j]));
    }
  }

  /**
   The incremental map is a declarative one: conversion succeeds exactly when
   each quote converts alone and no two resolve to one key, and then the map
   holds one entry per quote, strictly sorted by key.
   */
  lemma {:induction false} MapCharacterised(f: Converter, quotes: seq<RawQuote>)
    ensures AddQuotes(f, quotes).Ok? <==>
            EachConverts(f, quotes) && DistinctKeys(Entries(f, quotes), EntryKey)
    ensures AddQuotes(f, quotes).Ok? ==>
            var m := AddQuotes(f, quotes).value;
            multiset(m) == multiset(Entries(f, quotes)) && StrictlySortedBy(m, EntryKey)
    decreases |quotes|
  {
    if quotes == [] {
      assert Entries(f, quotes) == [];
    } else {
      var n := |quotes| - 1;
      var init, raw := quotes[..n], quotes[n];
      var es, es' := Entries(f, init), Entries(f, quotes);
      MapCharacterised(f, init);
      assert es' == es + [EntryOf(f)(raw)];
      EachSnoc(f, init, raw);
      assert init + [raw] == quotes;
      if f(raw).Ok? {
        var e := f(raw).value;
        DistinctSnoc(es, e);
        if AddQuotes(f, init).Ok? {
          var m := AddQuotes(f, init).value;
          if HasKey(m, EntryKey(e)) {
            HasKeyMultiset(m, es, EntryKey(e));
          } else {
            if HasKey(es, EntryKey(e)) { HasKeyMultiset(es, m, EntryKey(e)); }
            InsertStrict(e, m);
          }
        }
      }
    }
  }

  lemma EachSnoc(f: Converter, init: seq<RawQuote>, raw: RawQuote)
    ensures EachConverts(f, init + [raw]) <==> EachConverts(f, init) && f(raw).Ok?
  {
    var t := init + [raw];
    if EachConverts(f, t) {
      assert f(t[|init|]).Ok?;
      forall i | 0 <= i < |init| ensures f(init[i]).Ok? {
        assert f(t[i]).Ok?;
      }
    }
  }

  lemma EachSurvivesPermutation(f: Converter, quotes: seq<RawQuote>, shuffled: seq<RawQuote>)
    requires multiset(quotes) == multiset(shuffled) && EachConverts(f, quotes)
    ensures EachConverts(f, shuffled)
  {
    forall i | 0 <= i < |shuffled| ensures f(shuffled[i]).Ok? {
      assert shuffled[i] in multiset(shuffled);
      var k := PositionOf(shuffled[i], quotes);
    }
  }

  lemma AddQuotesForgetsOrder(f: Converter, quotes: seq<RawQuote>, shuffled: seq<RawQuote>)
    requires multiset(quotes) == multiset(shuffled) && AddQuotes(f, quotes).Ok?
    ensures AddQuotes(f, shuffled) == AddQuotes(f, quotes)
    ensures |AddQuotes(f, quotes).value| == |quotes|
  {
    MapCharacterised(f, quotes);
    MapCharacterised(f, shuffled);
    EachSurvivesPermutation(f, quotes, shuffled);
    MapPermutation(EntryOf(f), quotes, shuffled);
    DistinctSurvivesPermutation(Entries(f, quotes), Entries(f, shuffled), EntryKey);
    var m, m' := AddQuotes(f, quotes).value, AddQuotes(f, shuffled).value;
    StrictlySortedUnique(m, m', EntryKey);
    assert |multiset(m)| == |multiset(Entries(f, quotes))|;
  }

  /** The order in which a feed lists its quotes cannot be seen in the snapshot; no quote is merged or lost. */
  lemma QuoteOrderIrrelevant(meta: SnapshotMeta, quotes: seq<RawQuote>, shuffled: seq<RawQuote>)
    requires multiset(quotes) == multiset(shuffled)
    ensures Snapshot(meta, quotes).Ok? <==> Snapshot(meta, shuffled).Ok?
    ensures Snapshot(meta, quotes).Ok? ==>
            Snapshot(meta, quotes) == Snapshot(meta, shuffled) &&
            |Snapshot(meta, quotes).value.quotes| == |quotes|
  {
    if meta.tick != 0 && meta.multiplier != 0 {
      var f := ConverterOf(meta);
      if AddQuotes(f, quotes).Ok? {
        AddQuotesForgetsOrder(f, quotes, shuffled);
      } else if AddQuotes(f, shuffled).Ok? {
        AddQuotesForgetsOrder(f, shuffled, quotes);
      }
    }
  }

  /**
   The midpoint is the largest multiple of the tick not above `(bid + ask) / 2`
   and lies within the spread, both ends of which are on the grid.
   */
  lemma MidIsBestTick(meta: SnapshotMeta, raw: RawQuote, other: int)
    requires meta.tick > 0 && ConvertQuote(meta, raw).Ok?
    ensures var v := ConvertQuote(meta, raw).value.view;
            && v.mid % meta.tick == 0 && 2 * v.mid <= raw.bid + raw.ask
            && raw.bid <= v.mid <= raw.ask
            && (other % meta.tick == 0 && 2 * other <= raw.bid + raw.ask ==> other <= v.mid)
            && v.bid == raw.bid && v.ask == raw.ask
  {
    var half := (raw.bid + raw.ask) / 2;
    FloorIsGreatest(half, meta.tick, other);
    FloorIsGreatest(half, meta.tick, raw.bid);
    RemainderIsModulo(raw.bid, meta.tick);
  }

  lemma FloorIsGreatest(value: u64, tick: u64, other: int)
    requires tick > 0
    ensures FloorToTick(value, tick) % tick == 0 && FloorToTick(value, tick) <= value
    ensures other % tick == 0 && other <= value ==> other <= FloorToTick(value, tick)
  {
    hide Remainder, FloorToTick;
    FloorIsDifference(value, tick);
    RemainderIsModulo(value, tick);
    var q := value / tick;
    assert value == q * tick + value % tick;
    MultipleMod(q, tick);
    if other % tick == 0 && 0 <= other <= value {
      assert other == other / tick * tick;
      if other / tick > q {
        Multiples(q, other / tick, tick);
      } else if other / tick < q {
        Multiples(other / tick, q, tick);
      }
    }
  }

  lemma MultipleMod(q: nat, tick: nat)
    requires tick > 0
    ensures q * tick % tick == 0
  {
    var x := q * tick;
    assert x == x / tick * tick + x % tick;
    QuotientUnique(q, 0, x / tick, x % tick, tick);
  }

  /** The entry keys itself, with an absolute instant and a valid ticker; the instant may still lie outside `i64`. */
  predicate Keyed(e: Entry)
  {
    e.view.contract == e.key && ValidTicker(e.key.underlying) && e.key.expiration.DateTime?
  }

  /** An absolute expiry passes through unchecked; a relative one is checked as it is resolved. */
  predicate InstantFits(raw: RawQuote)
  {
    raw.expiration.DateTime? ==> FitsI64(raw.expiration.ns)
  }

  lemma EntryKeyed(meta: SnapshotMeta, raw: RawQuote)
    requires meta.tick > 0 && ValidTicker(meta.underlying) && ConvertQuote(meta, raw).Ok?
    ensures var e := ConvertQuote(meta, raw).value;
            Keyed(e) && e.key.underlying == meta.underlying && (Resolved(e.key) <==> InstantFits(raw))
  {
  }

  /** The entry at `i` comes from some quote, and the entry of every quote is at some `i`. */
  lemma EntryOrigin(meta: SnapshotMeta, quotes: seq<RawQuote>, i: nat) returns (k: nat)
    requires Snapshot(meta, quotes).Ok? && i < |Snapshot(meta, quotes).value.quotes|
    ensures k < |quotes| && ConvertQuote(meta, quotes[k]) == Ok(Snapshot(meta, quotes).value.quotes[i])
  {
    var f := ConverterOf(meta);
    MapCharacterised(f, quotes);
    var m := AddQuotes(f, quotes).value;
    assert m[i] in multiset(m);
    k := PositionOf(m[i], Entries(f, quotes));
    assert f(quotes[k]).Ok?;
  }

  lemma EntryPlace(meta: SnapshotMeta, quotes: seq<RawQuote>, k: nat) returns (i: nat)
    requires Snapshot(meta, quotes).Ok? && k < |quotes|
    ensures i < |Snapshot(meta, quotes).value.quotes|
    ensures ConvertQuote(meta, quotes[k]) == Ok(Snapshot(meta, quotes).value.quotes[i])
  {
    var f := ConverterOf(meta);
    MapCharacterised(f, quotes);
    var m, es := AddQuotes(f, quotes).value, Entries(f, quotes);
    assert f(quotes[k]).Ok? && es[k] in multiset(es);
    i := PositionOf(es[k], m);
  }

  /** Every entry of a converted snapshot keys itself under the ticker of the snapshot. */
  lemma ConvertedEntriesKeyed(meta: SnapshotMeta, quotes: seq<RawQuote>, i: nat)
    requires ValidTicker(meta.underlying) && Snapshot(meta, quotes).Ok?
    requires i < |Snapshot(meta, quotes).value.quotes|
    ensures Keyed(Snapshot(meta, quotes).value.quotes[i])
    ensures Snapshot(meta, quotes).value.quotes[i].key.underlying == meta.underlying
  {
    var k := EntryOrigin(meta, quotes, i);
    EntryKeyed(meta, quotes[k]);
  }

  /** Its keys are all resolved exactly when every absolute expiry it was given lies within `i64` nanoseconds. */
  lemma ResolvedIffInstantsFit(meta: SnapshotMeta, quotes: seq<RawQuote>)
    requires ValidTicker(meta.underlying) && Snapshot(meta, quotes).Ok?
    ensures var es := Snapshot(meta, quotes).value.quotes;
            (forall i | 0 <= i < |es| :: Resolved(es[i].key)) <==>
            (forall k | 0 <= k < |quotes| :: InstantFits(quotes[k]))
  {
    hide ConvertQuote, InstantFits, Resolved, AddQuotes;
    var es := Snapshot(meta, quotes).value.quotes;
    if forall i | 0 <= i < |es| :: Resolved(es[i].key) {
      forall k | 0 <= k < |quotes| ensures InstantFits(quotes[k]) {
        var i := EntryPlace(meta, quotes, k);
        EntryKeyed(meta, quotes[k]);
      }
    }
    if forall k | 0 <= k < |quotes| :: InstantFits(quotes[k]) {
      forall i | 0 <= i < |es| ensures Resolved(es[i].key) {
        var k := EntryOrigin(meta, quotes, i);
        EntryKeyed(meta, quotes[k]);
      }
    }
  }

  // ---- What a quote must be, and what becomes of it -----------------------

  /** A relative expiry falls on the nanosecond nearest to the anchor plus its days, on an even number in a tie. */
  predicate FallsOn(units: nat, anchorTs: i64, ns: int)
  {
    var days := units as real / 10_000_000_000_000_000_000_000_000_000.0;
    var off := (ns - anchorTs) as real - days * 86_400_000_000_000.0;
    -0.5 <= off <= 0.5 && (off == 0.5 || off == -0.5 ==> (ns - anchorTs) % 2 == 0)
  }

  /** An absolute expiry is kept as it is; a relative one has to fall into the `i64` range. */
  predicate Expires(e: Expiration, anchorTs: i64, x: Expiration)
  {
    match e
    case DateTime(_) => x == e
    case Days(units) => x.DateTime? && FitsI64(x.ns) && FallsOn(units, anchorTs, x.ns)
  }

  lemma ResolvesTo(e: Expiration, anchorTs: i64, x: Expiration)
    ensures ResolveExpiration(e, anchorTs) == Ok(x) <==> Expires(e, anchorTs, x)
  {
    if e.Days? {
      var days := e.units as real / UNIT_SCALE as real * NANOS_PER_DAY as real;
      RoundsToNearest(days, RoundHalfEven(days));
      if x.DateTime? {
        RoundsToNearest(days, x.ns - anchorTs);
      }
    }
  }

  /** The midpoint is the last multiple of the tick not above half the sum. */
  predicate Midpoint(mid: nat, bid: nat, ask: nat, tick: nat)
    requires tick > 0
  {
    Remainder(mid, tick) == 0 && 2 * mid <= bid + ask < 2 * (mid + tick)
  }

  lemma MidIsMidpoint(bid: u64, ask: u64, tick: u64, mid: nat)
    requires tick > 0 && FitsU64(bid + ask)
    ensures FloorToTick((bid + ask) / 2, tick) == mid <==> Midpoint(mid, bid, ask, tick)
  {
    hide Remainder, FloorToTick;
    var half := (bid + ask) / 2;
    FloorIsDifference(half, tick);
    var floor := FloorToTick(half, tick);
    FloorIsGreatest(half, tick, 0);
    RemainderIsModulo(floor, tick);
    var whole := Divided(half, tick);
    if Midpoint(mid, bid, ask, tick) {
      var p := Divided(mid, tick);
      var q := Divided(floor, tick);
      if p < q {
        Multiples(p, q, tick);
      } else if q < p {
        Multiples(q, p, tick);
      }
    }
  }

  /** The entry `e` is what the quote `raw` becomes, field by field. */
  predicate Becomes(meta: SnapshotMeta, raw: RawQuote, e: Entry)
    requires meta.tick > 0
  {
    && e.key.underlying == meta.underlying && Expires(raw.expiration, meta.anchorTs, e.key.expiration)
    && e.key.strike == raw.strike && e.key.style == raw.style && e.view.contract == e.key
    && e.view.bid == raw.bid && e.view.ask == raw.ask && WellPriced(e, meta.tick)
    && e.view.bidSize == raw.bidSize && e.view.askSize == raw.askSize
    && raw.iv == Finite(e.view.iv) && raw.delta == Finite(e.view.delta) && raw.gamma == Finite(e.view.gamma)
    && raw.theta == Finite(e.view.theta) && raw.vega == Finite(e.view.vega)
  }

  /** Conversion of one quote, both ways: it is taken exactly when some entry fits it, and becomes that entry. */
  lemma ConvertsTo(meta: SnapshotMeta, raw: RawQuote, e: Entry)
    requires meta.tick > 0
    ensures ConvertQuote(meta, raw) == Ok(e) <==> Becomes(meta, raw, e)
  {
    hide Remainder, ResolveExpiration, Expires, Midpoint, FloorToTick;
    ResolvesTo(raw.expiration, meta.anchorTs, e.key.expiration);
    if FitsU64(raw.bid + raw.ask) {
      MidIsMidpoint(raw.bid, raw.ask, meta.tick, e.view.mid);
    }
  }

  ghost predicate HasEntry(meta: SnapshotMeta, raw: RawQuote, entries: seq<Entry>)
    requires meta.tick > 0
  {
    exists i :: 0 <= i < |entries| && Becomes(meta, raw, entries[i])
  }

  ghost predicate HasQuote(meta: SnapshotMeta, quotes: seq<RawQuote>, e: Entry)
    requires meta.tick > 0
  {
    exists k :: 0 <= k < |quotes| && Becomes(meta, quotes[k], e)
  }

  /** Every quote has its entry in the snapshot, and every entry its quote. */
  ghost predicate Correspond(meta: SnapshotMeta, quotes: seq<RawQuote>, entries: seq<Entry>)
    requires meta.tick > 0
  {
    && (forall k | 0 <= k < |quotes| :: HasEntry(meta, quotes[k], entries))
    && (forall i | 0 <= i < |entries| :: HasQuote(meta, quotes, entries[i]))
  }

  /** No two quotes become entries of one contract. */
  ghost predicate OneQuoteEach(meta: SnapshotMeta, quotes: seq<RawQuote>)
    requires meta.tick > 0
  {
    forall k, l, a, b | 0 <= k < l < |quotes| && Becomes(meta, quotes[k], a) && Becomes(meta, quotes[l], b) ::
      a.key != b.key
  }

  /** Conversion of all quotes, both ways: what a snapshot of them is. */
  lemma SnapshotIff(meta: SnapshotMeta, quotes: seq<RawQuote>, s: ChainSnapshot)
    ensures Snapshot(meta, quotes) == Ok(s) <==>
            && meta.tick > 0 && meta.multiplier > 0
            && s.ts == meta.ts && s.step == meta.step && s.underlying == meta.underlying
            && s.underlyingPrice == meta.underlyingPrice && s.tick == meta.tick && s.multiplier == meta.multiplier
            && StrictlySortedBy(s.quotes, EntryKey) && Correspond(meta, quotes, s.quotes)
            && OneQuoteEach(meta, quotes)
  {
    hide ConvertQuote, Becomes, StrictlySortedBy, Correspond, OneQuoteEach, AddQuotes;
    if meta.tick > 0 && meta.multiplier > 0 {
      EntriesIff(meta, quotes, s.quotes);
    }
  }

  lemma EntriesIff(meta: SnapshotMeta, quotes: seq<RawQuote>, entries: seq<Entry>)
    requires meta.tick > 0
    ensures AddQuotes(ConverterOf(meta), quotes) == Ok(entries) <==>
            && StrictlySortedBy(entries, EntryKey) && Correspond(meta, quotes, entries) && OneQuoteEach(meta, quotes)
  {
    hide ConvertQuote, Becomes, StrictlySortedBy, AddQuotes, DistinctKeys, Correspond, OneQuoteEach, Entries;
    hide EachConverts;
    var f := ConverterOf(meta);
    MapCharacterised(f, quotes);
    if EachConverts(f, quotes) {
      OneEachIff(meta, quotes);
      if AddQuotes(f, quotes).Ok? {
        CorrespondIff(meta, quotes, AddQuotes(f, quotes).value, entries);
      }
    } else if Correspond(meta, quotes, entries) {
      CorrespondConverts(meta, quotes, entries);
    }
  }

  lemma CorrespondConverts(meta: SnapshotMeta, quotes: seq<RawQuote>, entries: seq<Entry>)
    requires meta.tick > 0 && Correspond(meta, quotes, entries)
    ensures EachConverts(ConverterOf(meta), quotes)
  {
    hide ConvertQuote, Becomes;
    forall k | 0 <= k < |quotes| ensures ConverterOf(meta)(quotes[k]).Ok? {
      var i := PlaceOf(meta, quotes, entries, k);
      ConvertsTo(meta, quotes[k], entries[i]);
    }
  }

  /** The entry at `k` is the one its quote becomes. */
  lemma EntryAt(meta: SnapshotMeta, quotes: seq<RawQuote>, k: nat, e: Entry)
    requires meta.tick > 0 && EachConverts(ConverterOf(meta), quotes) && k < |quotes|
    ensures Becomes(meta, quotes[k], e) <==> e == Entries(ConverterOf(meta), quotes)[k]
  {
    hide ConvertQuote, Becomes;
    assert ConverterOf(meta)(quotes[k]).Ok?;
    ConvertsTo(meta, quotes[k], e);
  }

  lemma OneEachIff(meta: SnapshotMeta, quotes: seq<RawQuote>)
    requires meta.tick > 0 && EachConverts(ConverterOf(meta), quotes)
    ensures OneQuoteEach(meta, quotes) <==> DistinctKeys(Entries(ConverterOf(meta), quotes), EntryKey)
  {
    hide ConvertQuote, Becomes, OrderKey, Entries, EachConverts;
    var es := Entries(ConverterOf(meta), quotes);
    assert |es| == |quotes| by { EntriesCount(meta, quotes); }
    forall k, l | 0 <= k < l < |quotes|
      ensures EntryKey(es[k]) == EntryKey(es[l]) <==> es[k].key == es[l].key
    {
      OrderKeyInjective(es[k].key, es[l].key);
    }
    forall k, e | 0 <= k < |quotes| ensures Becomes(meta, quotes[k], e) <==> e == es[k] {
      EntryAt(meta, quotes, k, e);
    }
    if OneQuoteEach(meta, quotes) {
      forall k, l | 0 <= k < l < |quotes| ensures es[k].key != es[l].key {
        assert Becomes(meta, quotes[k], es[k]) && Becomes(meta, quotes[l], es[l]);
      }
    }
  }

  lemma EntriesCount(meta: SnapshotMeta, quotes: seq<RawQuote>)
    requires meta.tick > 0
    ensures |Entries(ConverterOf(meta), quotes)| == |quotes|
  {
  }

  lemma CorrespondIff(meta: SnapshotMeta, quotes: seq<RawQuote>, m: seq<Entry>, entries: seq<Entry>)
    requires meta.tick > 0 && EachConverts(ConverterOf(meta), quotes)
    requires StrictlySortedBy(m, EntryKey) && multiset(m) == multiset(Entries(ConverterOf(meta), quotes))
    ensures StrictlySortedBy(entries, EntryKey) && Correspond(meta, quotes, entries) <==> entries == m
  {
    hide ConvertQuote, Becomes, StrictlySortedBy, Correspond, Entries, EachConverts;
    CorrespondOwn(meta, quotes, m);
    if StrictlySortedBy(entries, EntryKey) && Correspond(meta, quotes, entries) {
      forall x ensures x in entries <==> x in m {
        if x in entries { Contained(meta, quotes, entries, m, x); }
        if x in m { Contained(meta, quotes, m, entries, x); }
      }
      StrictSameElements(entries, m, EntryKey);
    }
  }

  lemma CorrespondOwn(meta: SnapshotMeta, quotes: seq<RawQuote>, m: seq<Entry>)
    requires meta.tick > 0 && EachConverts(ConverterOf(meta), quotes)
    requires multiset(m) == multiset(Entries(ConverterOf(meta), quotes))
    ensures Correspond(meta, quotes, m)
  {
    hide ConvertQuote, Becomes, Entries, EachConverts;
    var es := Entries(ConverterOf(meta), quotes);
    assert |es| == |quotes| by { EntriesCount(meta, quotes); }
    forall k | 0 <= k < |quotes| ensures HasEntry(meta, quotes[k], m) {
      assert es[k] in multiset(es);
      var i := PositionOf(es[k], m);
      EntryAt(meta, quotes, k, m[i]);
    }
    forall i | 0 <= i < |m| ensures HasQuote(meta, quotes, m[i]) {
      assert m[i] in multiset(m);
      var k := PositionOf(m[i], es);
      EntryAt(meta, quotes, k, m[i]);
    }
  }

  /** What corresponds to the same quotes has the same entries. */
  lemma Contained(meta: SnapshotMeta, quotes: seq<RawQuote>, a: seq<Entry>, b: seq<Entry>, x: Entry)
    requires meta.tick > 0 && EachConverts(ConverterOf(meta), quotes)
    requires Correspond(meta, quotes, a) && Correspond(meta, quotes, b) && x in a
    ensures x in b
  {
    hide ConvertQuote, Becomes, Entries, EachConverts;
    hide Correspond;
    var i :| 0 <= i < |a| && a[i] == x;
    var k := QuoteOf(meta, quotes, a, i);
    var j := PlaceOf(meta, quotes, b, k);
    EntryAt(meta, quotes, k, a[i]);
    EntryAt(meta, quotes, k, b[j]);
  }

  lemma QuoteOf(meta: SnapshotMeta, quotes: seq<RawQuote>, entries: seq<Entry>, i: nat) returns (k: nat)
    requires meta.tick > 0 && Correspond(meta, quotes, entries) && i < |entries|
    ensures k < |quotes| && Becomes(meta, quotes[k], entries[i])
  {
    hide Becomes;
    assert HasQuote(meta, quotes, entries[i]);
    k :| 0 <= k < |quotes| && Becomes(meta, quotes[k], entries[i]);
  }

  lemma PlaceOf(meta: SnapshotMeta, quotes: seq<RawQuote>, entries: seq<Entry>, k: nat) returns (i: nat)
    requires meta.tick > 0 && Correspond(meta, quotes, entries) && k < |quotes|
    ensures i < |entries| && Becomes(meta, quotes[k], entries[i])
  {
    hide Becomes;
    assert HasEntry(meta, quotes[k], entries);
    i :| 0 <= i < |entries| && Becomes(meta, quotes[k], entries[i]);
  }
}
