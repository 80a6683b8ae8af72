/** Integer-cents statistics in one pass, and the definitions they compute (src/analytics/metrics.rs). */
module Metrics {
  import opened Common

  // ---- Drawdown -----------------------------------------------------------

  /** The equity at peak position `i`: the initial capital first, then the curve. */
  function PeakAt(curve: seq<i64>, initial: i64, i: nat): int
    requires i <= |curve|
  {
    if i == 0 then initial else curve[i - 1]
  }

  /** No fall from one of the positions `0..n` to a later-or-equal point of the curve exceeds `d`. */
  ghost predicate FallsWithin(curve: seq<i64>, initial: i64, n: nat, d: int)
    requires n <= |curve|
  {
    forall i, j | 0 <= i <= j <= n && j > 0 :: PeakAt(curve, initial, i) - PeakAt(curve, initial, j) <= d
  }

  /** Some fall is exactly `d`. */
  ghost predicate Falls(curve: seq<i64>, initial: i64, n: nat, d: int)
    requires n <= |curve|
  {
    exists i, j :: 0 <= i <= j <= n && j > 0 && PeakAt(curve, initial, i) - PeakAt(curve, initial, j) == d
  }

  /** `d` is the largest fall from an earlier peak to a later-or-equal point, or zero. */
  ghost predicate IsMaxDrawdown(curve: seq<i64>, initial: i64, d: int)
  {
    d >= 0 && FallsWithin(curve, initial, |curve|, d) && (d == 0 || Falls(curve, initial, |curve|, d))
  }

  /** The largest drawdown is one number. */
  lemma MaxDrawdownUnique(curve: seq<i64>, initial: i64, d: int, e: int)
    requires IsMaxDrawdown(curve, initial, d) && IsMaxDrawdown(curve, initial, e)
    ensures d == e
  {
  }

  /** One more point: measuring it against the highest peak so far is enough. */
  lemma OneMorePoint(curve: seq<i64>, initial: i64, n: nat, peakIdx: nat, d: int, d': int)
    requires peakIdx <= n + 1 <= |curve| && FallsWithin(curve, initial, n, d) && d <= d'
    requires forall i | 0 <= i <= n + 1 :: PeakAt(curve, initial, i) <= PeakAt(curve, initial, peakIdx)
    requires PeakAt(curve, initial, peakIdx) - PeakAt(curve, initial, n + 1) <= d'
    ensures FallsWithin(curve, initial, n + 1, d')
  {
  }

  /** Before the first point nothing has fallen. */
  lemma NoFallYet(curve: seq<i64>, initial: i64)
    ensures FallsWithin(curve, initial, 0, 0)
  {
  }

  /** The fall to point `n` is seen by every later prefix, and earlier falls are not forgotten. */
  lemma FallIsSeen(curve: seq<i64>, initial: i64, n: nat, i: nat)
    requires i <= n + 1 <= |curve|
    ensures var d := PeakAt(curve, initial, i) - PeakAt(curve, initial, n + 1);
            && Falls(curve, initial, n + 1, d)
            && (d > I64_MAX ==> !FallsWithin(curve, initial, |curve|, I64_MAX))
    ensures forall d | Falls(curve, initial, n, d) :: Falls(curve, initial, n + 1, d)
  {
    hide PeakAt;
  }

  /** One pass with a running peak; an error exactly when a fall leaves `i64`. */
  method MaxDrawdownCents(curve: seq<i64>, initial: i64) returns (r: Result<i64, Error>)
    ensures r.Ok? ==> IsMaxDrawdown(curve, initial, r.value)
    ensures r.Err? ==> r == Err(ArithmeticOverflow) && !FallsWithin(curve, initial, |curve|, I64_MAX)
  {
    hide FallsWithin, Falls;
    var peak: int := initial;
    var maxDecline: int := 0;
    ghost var peakIdx := 0;
    var n := 0;
    NoFallYet(curve, initial);
    while n < |curve|
      invariant 0 <= n <= |curve| && FitsI64(peak) && 0 <= maxDecline <= I64_MAX
      invariant 0 <= peakIdx <= n && peak == PeakAt(curve, initial, peakIdx)
      invariant forall i | 0 <= i <= n :: PeakAt(curve, initial, i) <= peak
      invariant FallsWithin(curve, initial, n, maxDecline)
      invariant maxDecline > 0 ==> Falls(curve, initial, n, maxDecline)
    {
      if curve[n] > peak {
        peak := curve[n];
        peakIdx := n + 1;
      }
      var decline := peak - curve[n];
      FallIsSeen(curve, initial, n, peakIdx);
      if !FitsI64(decline) {
        return Err(ArithmeticOverflow);
      }
      OneMorePoint(curve, initial, n, peakIdx, maxDecline, if decline > maxDecline then decline else maxDecline);
      if decline > maxDecline {
        maxDecline := decline;
      }
      n := n + 1;
    }
    return Ok(maxDecline);
  }

  // ---- Consecutive losses -------------------------------------------------

  /** The window `[a, b)` holds only negative returns. */
  ghost predicate LossWindow(series: seq<real>, a: nat, b: nat)
  {
    a <= b <= |series| && forall k | a <= k < b :: series[k] < 0.0
  }

  /** A window reaching past `n` includes `series[n]` and starts no earlier than the run of losses ending there. */
  lemma LossWindowSplits(series: seq<real>, a: nat, b: nat, n: nat, start: nat)
    requires LossWindow(series, a, b) && b <= n + 1 <= |series|
    requires LossWindow(series, start, n) && (start > 0 ==> series[start - 1] >= 0.0)
    ensures b <= n || a > n || (series[n] < 0.0 && a >= start)
  {
  }

  /** The longest window of losses, found by one counter. */
  method MaxConsecutiveLosses(series: seq<real>) returns (max: nat)
    ensures forall a: nat, b: nat | LossWindow(series, a, b) :: b - a <= max
    ensures exists a: nat, b: nat :: LossWindow(series, a, b) && b - a == max
  {
    max := 0;
    var run := 0;
    ghost var from, to := 0, 0;
    var n := 0;
    while n < |series|
      invariant 0 <= run <= n <= |series|
      invariant LossWindow(series, n - run, n) && (run < n ==> series[n - run - 1] >= 0.0)
      invariant run <= max
      invariant 0 <= from && LossWindow(series, from, to) && to - from == max
      invariant forall a: nat, b: nat | LossWindow(series, a, b) && b <= n :: b - a <= max
    {
      ghost var start := n - run;
      if series[n] < 0.0 {
        run := run + 1;
        if run > max {
          max := run;
          from, to := n + 1 - run, n + 1;
        }
      } else {
        run := 0;
      }
      forall a: nat, b: nat | LossWindow(series, a, b) && b <= n + 1 ensures b - a <= max {
        LossWindowSplits(series, a, b, n, start);
      }
      n := n + 1;
    }
  }

  // ---- Time under water ---------------------------------------------------

  datatype EquityPoint = EquityPoint(ts: i64, drawdown: real)

  /** Into the `i64` range: what a saturating operation does with an exact result. */
  function Saturate(n: int): i64
  {
    if n > I64_MAX then I64_MAX else if n < -I64_MAX - 1 then -I64_MAX - 1 else n
  }

  /** The exact time spent on the way into points `1 .. n` that are below their peak, or are not. */
  function TimeBelow(curve: seq<EquityPoint>, below: bool, n: nat): int
    requires n <= |curve|
  {
    if n <= 1 then 0
    else TimeBelow(curve, below, n - 1) +
         if (curve[n - 1].drawdown < 0.0) == below then curve[n - 1].ts - curve[n - 2].ts as int else 0
  }

  /** Strictly increasing timestamps, as every validated tape has them. */
  ghost predicate Increasing(curve: seq<EquityPoint>)
  {
    forall i | 0 < i < |curve| :: curve[i - 1].ts < curve[i].ts
  }

  /** The loop's own sum, every gap and every step of it saturated. */
  function SaturatedBelow(curve: seq<EquityPoint>, n: nat): i64
    requires n <= |curve|
  {
    if n <= 1 then 0
    else
      var before := SaturatedBelow(curve, n - 1);
      if curve[n - 1].drawdown < 0.0 then
        Saturate(before + Saturate(curve[n - 1].ts - curve[n - 2].ts as int) as int)
      else before
  }

  method UnderwaterNs(curve: seq<EquityPoint>) returns (underwater: i64)
    ensures underwater == SaturatedBelow(curve, |curve|)
  {
    underwater := 0;
    if curve == [] {
      return;
    }
    var n := 1;
    while n < |curve|
      invariant 1 <= n <= |curve| && underwater == SaturatedBelow(curve, n)
    {
      if curve[n].drawdown < 0.0 {
        var gap := Saturate(curve[n].ts - curve[n - 1].ts as int);
        underwater := Saturate(underwater + gap as int);
      }
      n := n + 1;
    }
  }

  /** However early it saturates, the loop ends at the exact time saturated once. */
  lemma {:induction false} SaturationIsHarmless(curve: seq<EquityPoint>, n: nat)
    requires Increasing(curve) && n <= |curve|
    ensures SaturatedBelow(curve, n) == Saturate(TimeBelow(curve, true, n)) && 0 <= TimeBelow(curve, true, n)
  {
    if n > 0 {
      SaturationIsHarmless(curve, n - 1);
    }
  }

  /** Time under water and time at the peak add up to the span, so the underwater share is between nought and one. */
  lemma {:induction false} TimePartition(curve: seq<EquityPoint>, n: nat)
    requires Increasing(curve) && 0 < n <= |curve|
    ensures TimeBelow(curve, true, n) + TimeBelow(curve, false, n) == curve[n - 1].ts - curve[0].ts
    ensures 0 <= TimeBelow(curve, true, n) && 0 <= TimeBelow(curve, false, n)
    ensures 0 <= SaturatedBelow(curve, n) <= Saturate(curve[n - 1].ts - curve[0].ts as int)
  {
    SaturationIsHarmless(curve, n);
    if n > 1 {
      TimePartition(curve, n - 1);
    }
  }

  // ---- Realised aggregates ------------------------------------------------

  datatype ClosedTrade = ClosedTrade(
    pnl: i64, side: Side, style: Style, entryPremium: u64, quantity: u32, multiplier: u32)

  datatype OpenPosition = OpenPosition(side: Side, entryPremium: u64, quantity: u32)

  /** Premium on the cash basis. */
  function Premium(entry: u64, quantity: u32, multiplier: u32): int
  {
    (entry as int) * (quantity as int) * (multiplier as int)
  }

  function TradePremium(t: ClosedTrade): int
  {
    Premium(t.entryPremium, t.quantity, t.multiplier)
  }

  function OpenPremium(leg: OpenPosition, multiplier: u32): int
  {
    Premium(leg.entryPremium, leg.quantity, multiplier)
  }

  function CountIf(log: seq<ClosedTrade>, p: ClosedTrade -> bool): nat
  {
    if log == [] then 0
    else CountIf(log[..|log| - 1], p) + if p(log[|log| - 1]) then 1 else 0
  }

  function SumIf(log: seq<ClosedTrade>, p: ClosedTrade -> bool, v: ClosedTrade -> int): int
  {
    if log == [] then 0
    else SumIf(log[..|log| - 1], p, v) + if p(log[|log| - 1]) then v(log[|log| - 1]) else 0
  }

  predicate Wins(t: ClosedTrade) { t.pnl > 0 }
  predicate Loses(t: ClosedTrade) { t.pnl < 0 }
  predicate Even(t: ClosedTrade) { t.pnl == 0 }
  predicate IsShort(t: ClosedTrade) { t.side.Short? }
  predicate IsLong(t: ClosedTrade) { t.side.Long? }
  predicate IsCall(t: ClosedTrade) { t.style.Call? }
  predicate IsPut(t: ClosedTrade) { t.style.Put? }
  predicate Any(t: ClosedTrade) { true }
  function Pnl(t: ClosedTrade): int { t.pnl }

  /** Adding one more trade overflows no aggregate. */
  predicate FitsNext(log: seq<ClosedTrade>)
    requires log != []
  {
    && FitsI128(TradePremium(log[|log| - 1]))
    && FitsI128(SumIf(log, Wins, Pnl)) && FitsI128(SumIf(log, Loses, Pnl))
    && FitsI64(SumIf(log, Any, Pnl)) && FitsI64(SumIf(log, IsShort, Pnl)) && FitsI64(SumIf(log, IsLong, Pnl))
    && FitsI128(SumIf(log, IsShort, TradePremium)) && FitsI128(SumIf(log, IsLong, TradePremium))
  }

  function One(b: bool): nat { if b then 1 else 0 }
  function If(b: bool, n: int): int { if b then n else 0 }

  /** Every count and sum of the log with one more trade. */
  lemma OneMoreCount(log: seq<ClosedTrade>, t: ClosedTrade, p: ClosedTrade -> bool)
    ensures CountIf(log + [t], p) == CountIf(log, p) + One(p(t))
  {
    assert (log + [t])[..|log|] == log;
  }

  lemma OneMoreSum(log: seq<ClosedTrade>, t: ClosedTrade, p: ClosedTrade -> bool, v: ClosedTrade -> int)
    ensures SumIf(log + [t], p, v) == SumIf(log, p, v) + If(p(t), v(t))
  {
    assert (log + [t])[..|log|] == log;
  }

  lemma OneMoreTrade(log: seq<ClosedTrade>, t: ClosedTrade)
    ensures CountIf(log + [t], Wins) == CountIf(log, Wins) + One(Wins(t))
    ensures CountIf(log + [t], Loses) == CountIf(log, Loses) + One(Loses(t))
    ensures CountIf(log + [t], Even) == CountIf(log, Even) + One(Even(t))
    ensures CountIf(log + [t], IsShort) == CountIf(log, IsShort) + One(IsShort(t))
    ensures CountIf(log + [t], IsLong) == CountIf(log, IsLong) + One(IsLong(t))
    ensures CountIf(log + [t], IsCall) == CountIf(log, IsCall) + One(IsCall(t))
    ensures CountIf(log + [t], IsPut) == CountIf(log, IsPut) + One(IsPut(t))
    ensures SumIf(log + [t], Wins, Pnl) == SumIf(log, Wins, Pnl) + If(Wins(t), t.pnl)
    ensures SumIf(log + [t], Loses, Pnl) == SumIf(log, Loses, Pnl) + If(Loses(t), t.pnl)
    ensures SumIf(log + [t], Any, Pnl) == SumIf(log, Any, Pnl) + t.pnl
    ensures SumIf(log + [t], IsShort, Pnl) == SumIf(log, IsShort, Pnl) + If(IsShort(t), t.pnl)
    ensures SumIf(log + [t], IsLong, Pnl) == SumIf(log, IsLong, Pnl) + If(IsLong(t), t.pnl)
    ensures SumIf(log + [t], IsShort, TradePremium) ==
            SumIf(log, IsShort, TradePremium) + If(IsShort(t), TradePremium(t))
    ensures SumIf(log + [t], IsLong, TradePremium) == SumIf(log, IsLong, TradePremium) + If(IsLong(t), TradePremium(t))
  {
    hide CountIf, SumIf, TradePremium;
    OneMoreCount(log, t, Wins);
    OneMoreCount(log, t, Loses);
    OneMoreCount(log, t, Even);
    OneMoreCount(log, t, IsShort);
    OneMoreCount(log, t, IsLong);
    OneMoreCount(log, t, IsCall);
    OneMoreCount(log, t, IsPut);
    OneMoreSum(log, t, Wins, Pnl);
    OneMoreSum(log, t, Loses, Pnl);
    OneMoreSum(log, t, Any, Pnl);
    OneMoreSum(log, t, IsShort, Pnl);
    OneMoreSum(log, t, IsLong, Pnl);
    OneMoreSum(log, t, IsShort, TradePremium);
    OneMoreSum(log, t, IsLong, TradePremium);
  }

  /** Only the aggregates a trade is added to can newly overflow. */
  lemma FitsNextAffected(log: seq<ClosedTrade>, t: ClosedTrade)
    requires log != [] ==> FitsNext(log)
    ensures FitsNext(log + [t]) <==>
            && FitsI128(TradePremium(t))
            && (Wins(t) ==> FitsI128(SumIf(log, Wins, Pnl) + t.pnl))
            && (Loses(t) ==> FitsI128(SumIf(log, Loses, Pnl) + t.pnl))
            && FitsI64(SumIf(log, Any, Pnl) + t.pnl)
            && (IsShort(t) ==> FitsI64(SumIf(log, IsShort, Pnl) + t.pnl))
            && (IsShort(t) ==> FitsI128(SumIf(log, IsShort, TradePremium) + TradePremium(t)))
            && (IsLong(t) ==> FitsI64(SumIf(log, IsLong, Pnl) + t.pnl))
            && (IsLong(t) ==> FitsI128(SumIf(log, IsLong, TradePremium) + TradePremium(t)))
  {
    hide TradePremium, CountIf, SumIf;
    OneMoreTrade(log, t);
    EmptySums();
  }

  lemma EmptySums()
    ensures SumIf([], Wins, Pnl) == SumIf([], Loses, Pnl) == SumIf([], Any, Pnl) == 0
    ensures SumIf([], IsShort, Pnl) == SumIf([], IsLong, Pnl) == 0
    ensures SumIf([], IsShort, TradePremium) == SumIf([], IsLong, TradePremium) == 0
  {
  }

  class RealisedStats {
    var winners: nat
    var losers: nat
    var breakEven: nat
    var grossProfit: int
    var grossLoss: int
    var total: int
    var short: int
    var long: int
    var longTrades: nat
    var shortTrades: nat
    var callTrades: nat
    var putTrades: nat
    var entryReceived: int
    var entryPaid: int

    constructor ()
      ensures Describes([])
    {
      winners, losers, breakEven := 0, 0, 0;
      grossProfit, grossLoss := 0, 0;
      total, short, long := 0, 0, 0;
      longTrades, shortTrades, callTrades, putTrades := 0, 0, 0, 0;
      entryReceived, entryPaid := 0, 0;
    }

    /** Every field is the count or sum it is named after, over the whole log. */
    ghost predicate Describes(log: seq<ClosedTrade>)
      reads this
    {
      && winners == CountIf(log, Wins) && losers == CountIf(log, Loses) && breakEven == CountIf(log, Even)
      && grossProfit == SumIf(log, Wins, Pnl) && grossLoss == SumIf(log, Loses, Pnl)
      && total == SumIf(log, Any, Pnl) && short == SumIf(log, IsShort, Pnl) && long == SumIf(log, IsLong, Pnl)
      && longTrades == CountIf(log, IsLong) && shortTrades == CountIf(log, IsShort)
      && callTrades == CountIf(log, IsCall) && putTrades == CountIf(log, IsPut)
      && entryReceived == SumIf(log, IsShort, TradePremium) && entryPaid == SumIf(log, IsLong, TradePremium)
    }

    /** Which field a trade's P&L goes to by its outcome. */
    method AddOutcome(t: ClosedTrade) returns (ok: bool)
      modifies this`winners, this`losers, this`breakEven, this`grossProfit, this`grossLoss
      ensures winners == old(winners) + One(Wins(t)) && losers == old(losers) + One(Loses(t)) &&
              breakEven == old(breakEven) + One(Even(t))
      ensures grossProfit == old(grossProfit) + If(Wins(t), t.pnl) && grossLoss == old(grossLoss) + If(Loses(t), t.pnl)
      ensures ok <==>
              (Wins(t) ==> FitsI128(old(grossProfit) + t.pnl)) && (Loses(t) ==> FitsI128(old(grossLoss) + t.pnl))
    {
      ok := true;
      if t.pnl > 0 {
        winners := winners + 1;
        grossProfit := grossProfit + t.pnl;
        ok := FitsI128(grossProfit);
      } else if t.pnl < 0 {
        losers := losers + 1;
        grossLoss := grossLoss + t.pnl;
        ok := FitsI128(grossLoss);
      } else {
        breakEven := breakEven + 1;
      }
    }

    /** Which fields a trade's P&L and premium go to by its side. */
    method AddSide(t: ClosedTrade, premium: int) returns (ok: bool)
      modifies this`short, this`long, this`shortTrades, this`longTrades, this`entryReceived, this`entryPaid
      ensures shortTrades == old(shortTrades) + One(IsShort(t)) && longTrades == old(longTrades) + One(IsLong(t))
      ensures ok ==> short == old(short) + If(IsShort(t), t.pnl) && long == old(long) + If(IsLong(t), t.pnl)
      ensures ok ==> entryReceived == old(entryReceived) + If(IsShort(t), premium)
      ensures ok ==> entryPaid == old(entryPaid) + If(IsLong(t), premium)
      ensures ok <==> && (IsShort(t) ==> FitsI64(old(short) + t.pnl) && FitsI128(old(entryReceived) + premium))
                      && (IsLong(t) ==> FitsI64(old(long) + t.pnl) && FitsI128(old(entryPaid) + premium))
    {
      match t.side {
        case Short =>
          shortTrades := shortTrades + 1;
          short := short + t.pnl;
          if !FitsI64(short) { return false; }
          entryReceived := entryReceived + premium;
          return FitsI128(entryReceived);
        case Long =>
          longTrades := longTrades + 1;
          long := long + t.pnl;
          if !FitsI64(long) { return false; }
          entryPaid := entryPaid + premium;
          return FitsI128(entryPaid);
      }
    }

    method AddStyle(t: ClosedTrade)
      modifies this`callTrades, this`putTrades
      ensures callTrades == old(callTrades) + One(IsCall(t)) && putTrades == old(putTrades) + One(IsPut(t))
    {
      match t.style {
        case Call => callTrades := callTrades + 1;
        case Put => putTrades := putTrades + 1;
      }
    }

    /** The loop body of `from_log`: one trade into every aggregate it belongs to. */
    method Add(t: ClosedTrade, ghost before: seq<ClosedTrade>) returns (r: Result<(), Error>)
      requires Describes(before)
      requires before != [] ==> FitsNext(before)
      modifies this
      ensures r.Ok? <==> FitsNext(before + [t])
      ensures r.Ok? ==> Describes(before + [t])
      ensures r.Err? ==> r == Err(ArithmeticOverflow)
    {
      hide CountIf, SumIf, TradePremium, FitsNext, Wins, Loses, Even, IsShort, IsLong, IsCall, IsPut, One, If;
      OneMoreTrade(before, t);
      FitsNextAffected(before, t);
      var premium := TradePremium(t);
      if !FitsI128(premium) { return Err(ArithmeticOverflow); }
      var ok := AddOutcome(t);
      if !ok { return Err(ArithmeticOverflow); }
      total := total + t.pnl;
      if !FitsI64(total) { return Err(ArithmeticOverflow); }
      ok := AddSide(t, premium);
      if !ok { return Err(ArithmeticOverflow); }
      AddStyle(t);
      return Ok(());
    }
  }

  /** `RealisedStats::from_log`: an error exactly when some prefix of the log overflows an aggregate. */
  method FromLog(log: seq<ClosedTrade>) returns (r: Result<RealisedStats, Error>)
    ensures r.Ok? <==> forall n | 0 < n <= |log| :: FitsNext(log[..n])
    ensures r.Ok? ==> fresh(r.value) && r.value.Describes(log)
  {
    hide FitsNext, RealisedStats.Describes;
    var s := new RealisedStats();
    var i := 0;
    assert log[..0] == [];
    while i < |log|
      invariant 0 <= i <= |log| && fresh(s) && s.Describes(log[..i])
      invariant forall n | 0 < n <= i :: FitsNext(log[..n])
    {
      assert log[..i + 1] == log[..i] + [log[i]];
      var added := s.Add(log[i], log[..i]);
      if added.Err? {
        return Err(added.error);
      }
      i := i + 1;
    }
    assert log[..i] == log;
    return Ok(s);
  }

  /** Winners, losers and break-even partition the log, and so do sides and styles. */
  lemma {:induction false} CountsPartition(log: seq<ClosedTrade>)
    ensures CountIf(log, Wins) + CountIf(log, Loses) + CountIf(log, Even) == |log|
    ensures CountIf(log, IsShort) + CountIf(log, IsLong) == |log|
    ensures CountIf(log, IsCall) + CountIf(log, IsPut) == |log|
  {
    if log != [] {
      CountsPartition(log[..|log| - 1]);
    }
  }

  /** The total is short plus long, and gross profit plus gross loss. */
  lemma {:induction false} PnlConserved(log: seq<ClosedTrade>)
    ensures SumIf(log, Any, Pnl) == SumIf(log, IsShort, Pnl) + SumIf(log, IsLong, Pnl)
    ensures SumIf(log, Any, Pnl) == SumIf(log, Wins, Pnl) + SumIf(log, Loses, Pnl)
    ensures SumIf(log, Loses, Pnl) <= 0 <= SumIf(log, Wins, Pnl)
  {
    if log != [] {
      PnlConserved(log[..|log| - 1]);
    }
  }

  // ---- Net premium --------------------------------------------------------

  function Signed(side: Side, premium: int): int
  {
    if side.Short? then premium else -premium
  }

  function NetOfLog(log: seq<ClosedTrade>): int
  {
    if log == [] then 0
    else NetOfLog(log[..|log| - 1]) + Signed(log[|log| - 1].side, TradePremium(log[|log| - 1]))
  }

  function NetOfOpen(legs: seq<OpenPosition>, multiplier: u32): int
  {
    if legs == [] then 0
    else
      var leg := legs[|legs| - 1];
      NetOfOpen(legs[..|legs| - 1], multiplier) + Signed(leg.side, OpenPremium(leg, multiplier))
  }

  /** The multiplier open legs are weighted by: that of the first closed leg, or one. */
  function RunMultiplier(log: seq<ClosedTrade>): u32
  {
    if log == [] then 1 else log[0].multiplier
  }

  /** `net_add`, with the premium product checked too. */
  method NetAdd(net: int, side: Side, premium: int) returns (r: Result<int, Error>)
    requires FitsI128(net)
    ensures r == if FitsI128(premium) && FitsI128(net + Signed(side, premium)) then Ok(net + Signed(side, premium))
                 else Err(ArithmeticOverflow)
  {
    if !FitsI128(premium) {
      return Err(ArithmeticOverflow);
    }
    var next := if side.Short? then net + premium else net - premium;
    if !FitsI128(next) {
      return Err(ArithmeticOverflow);
    }
    return Ok(next);
  }

  /** No product, no running sum and not the total leaves its type. */
  ghost predicate NetFits(log: seq<ClosedTrade>, openAtEnd: seq<OpenPosition>)
  {
    && (forall n | 0 <= n < |log| :: FitsI128(TradePremium(log[n])))
    && (forall n | 0 <= n <= |log| :: FitsI128(NetOfLog(log[..n])))
    && (forall n | 0 <= n < |openAtEnd| :: FitsI128(OpenPremium(openAtEnd[n], RunMultiplier(log))))
    && (forall n | 0 <= n <= |openAtEnd| :: FitsI128(NetOfLog(log) + NetOfOpen(openAtEnd[..n], RunMultiplier(log))))
    && FitsI64(NetOfLog(log) + NetOfOpen(openAtEnd, RunMultiplier(log)))
  }

  /**
   `net_premium_cents`: the closed and the open legs in one signed sum, an error
   exactly when something leaves its type.
   */
  method NetPremiumCents(log: seq<ClosedTrade>, openAtEnd: seq<OpenPosition>) returns (r: Result<i64, Error>)
    ensures r.Ok? <==> NetFits(log, openAtEnd)
    ensures r.Ok? ==> r.value == NetOfLog(log) + NetOfOpen(openAtEnd, RunMultiplier(log))
    ensures r.Err? ==> r == Err(ArithmeticOverflow)
  {
    hide TradePremium, OpenPremium;
    var net := 0;
    var i := 0;
    while i < |log|
      invariant 0 <= i <= |log| && net == NetOfLog(log[..i])
      invariant forall n | 0 <= n < i :: FitsI128(TradePremium(log[n]))
      invariant forall n | 0 <= n <= i :: FitsI128(NetOfLog(log[..n]))
    {
      assert log[..i + 1][..i] == log[..i];
      var added := NetAdd(net, log[i].side, TradePremium(log[i]));
      assert added.Ok? <==> FitsI128(TradePremium(log[i])) && FitsI128(NetOfLog(log[..i + 1]));
      if added.Err? { return Err(added.error); }
      net := added.value;
      i := i + 1;
    }
    assert log[..i] == log;
    r := NetOpenCents(log, openAtEnd, net);
  }

  method NetOpenCents(log: seq<ClosedTrade>, openAtEnd: seq<OpenPosition>, closed: int) returns (r: Result<i64, Error>)
    requires closed == NetOfLog(log)
    requires forall n | 0 <= n < |log| :: FitsI128(TradePremium(log[n]))
    requires forall n | 0 <= n <= |log| :: FitsI128(NetOfLog(log[..n]))
    ensures r.Ok? <==> NetFits(log, openAtEnd)
    ensures r.Ok? ==> r.value == NetOfLog(log) + NetOfOpen(openAtEnd, RunMultiplier(log))
    ensures r.Err? ==> r == Err(ArithmeticOverflow)
  {
    hide TradePremium, OpenPremium, NetOfLog;
    var multiplier := RunMultiplier(log);
    var net := closed;
    var i := 0;
    assert log[..|log|] == log;
    while i < |openAtEnd|
      invariant 0 <= i <= |openAtEnd| && net == closed + NetOfOpen(openAtEnd[..i], multiplier)
      invariant forall n | 0 <= n < i :: FitsI128(OpenPremium(openAtEnd[n], multiplier))
      invariant forall n | 0 <= n <= i :: FitsI128(closed + NetOfOpen(openAtEnd[..n], multiplier))
    {
      assert openAtEnd[..i + 1][..i] == openAtEnd[..i];
      var leg := openAtEnd[i];
      var added := NetAdd(net, leg.side, OpenPremium(leg, multiplier));
      assert added.Ok? <==>
             FitsI128(OpenPremium(leg, multiplier)) && FitsI128(closed + NetOfOpen(openAtEnd[..i + 1], multiplier));
      if added.Err? { return Err(added.error); }
      net := added.value;
      i := i + 1;
    }
    assert openAtEnd[..i] == openAtEnd;
    if !FitsI64(net) {
      return Err(ArithmeticOverflow);
    }
    return Ok(net);
  }

  /**
   The two premium computations agree: with no legs left open, the net premium
   is the premium received less the premium paid of the realised statistics.
   */
  lemma {:induction false} PremiumsAgree(log: seq<ClosedTrade>)
    ensures NetOfLog(log) + NetOfOpen([], RunMultiplier(log)) ==
            SumIf(log, IsShort, TradePremium) - SumIf(log, IsLong, TradePremium)
  {
    if log != [] {
      PremiumsAgree(log[..|log| - 1]);
    }
  }

  lemma {:induction false} PremiumsNonNegative(log: seq<ClosedTrade>, p: ClosedTrade -> bool)
    ensures SumIf(log, p, TradePremium) >= 0
  {
    if log != [] {
      PremiumsNonNegative(log[..|log| - 1], p);
    }
  }

  /** A log whose statistics fit has a net premium exactly when that one number fits `i64`. */
  lemma NetPremiumOfRealised(log: seq<ClosedTrade>)
    requires forall n | 0 < n <= |log| :: FitsNext(log[..n])
    ensures NetFits(log, []) <==>
            FitsI64(SumIf(log, IsShort, TradePremium) - SumIf(log, IsLong, TradePremium))
  {
    hide TradePremium, SumIf, NetOfLog;
    forall n | 0 <= n <= |log| ensures FitsI128(NetOfLog(log[..n])) {
      PremiumsAgree(log[..n]);
      PremiumsNonNegative(log[..n], IsShort);
      PremiumsNonNegative(log[..n], IsLong);
      if n == 0 {
        EmptySums();
      } else {
        assert FitsNext(log[..n]);
      }
    }
    forall n | 0 <= n < |log| ensures FitsI128(TradePremium(log[n])) {
      assert FitsNext(log[..n + 1]);
    }
    assert log[..|log|] == log;
    PremiumsAgree(log);
  }

  // ---- Premiums, written out ----------------------------------------------

  /** Cents received for the short trades of a log, or paid for the long ones. */
  function CashOf(log: seq<ClosedTrade>, side: Side): int
  {
    if log == [] then 0
    else
      var t := log[|log| - 1];
      CashOf(log[..|log| - 1], side) +
      if t.side == side then t.entryPremium * t.quantity * t.multiplier else 0
  }

  function CashOfOpen(legs: seq<OpenPosition>, side: Side, multiplier: u32): int
  {
    if legs == [] then 0
    else
      var leg := legs[|legs| - 1];
      CashOfOpen(legs[..|legs| - 1], side, multiplier) +
      if leg.side == side then leg.entryPremium * leg.quantity * multiplier else 0
  }

  lemma {:induction false} ClosedCash(log: seq<ClosedTrade>)
    ensures SumIf(log, IsShort, TradePremium) == CashOf(log, Short)
    ensures SumIf(log, IsLong, TradePremium) == CashOf(log, Long)
    ensures NetOfLog(log) == CashOf(log, Short) - CashOf(log, Long)
  {
    if log != [] {
      ClosedCash(log[..|log| - 1]);
    }
  }

  lemma {:induction false} OpenCash(legs: seq<OpenPosition>, multiplier: u32)
    ensures NetOfOpen(legs, multiplier) == CashOfOpen(legs, Short, multiplier) - CashOfOpen(legs, Long, multiplier)
  {
    if legs != [] {
      OpenCash(legs[..|legs| - 1], multiplier);
    }
  }

  /**
   The two premium totals and the net premium in terms of the trades: entry
   premium times quantity times multiplier, received for shorts and paid for
   longs, open legs weighted by the multiplier of the first closed trade.
   */
  lemma PremiumsWritten(log: seq<ClosedTrade>, openAtEnd: seq<OpenPosition>)
    ensures SumIf(log, IsShort, TradePremium) == CashOf(log, Short)
    ensures SumIf(log, IsLong, TradePremium) == CashOf(log, Long)
    ensures var m := if log == [] then 1 else log[0].multiplier;
            NetOfLog(log) + NetOfOpen(openAtEnd, RunMultiplier(log)) ==
            CashOf(log, Short) - CashOf(log, Long) + CashOfOpen(openAtEnd, Short, m) - CashOfOpen(openAtEnd, Long, m)
  {
    ClosedCash(log);
    OpenCash(openAtEnd, RunMultiplier(log));
  }
}
