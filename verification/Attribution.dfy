/** P&L attribution by Greek over the flat leg buffer, closed by an exact residual (src/analytics/attribution.rs). */
module Attribution {
  import opened Common
  import opened Rounding
  import opened Sorting

  const NANOS_PER_DAY := 86_400_000_000_000
  const DOLLARS_TO_CENTS := 100
  const IV_DECIMAL_TO_PP := 100

  /** Per-contract unit Greeks of the previous snapshot. */
  datatype UnitGreeks = UnitGreeks(theta: real, delta: real, vega: real, iv: real)

  datatype Leg = Leg(priorGreeks: Option<UnitGreeks>, currentIv: real, quantity: u32, multiplier: u32, side: Side)

  datatype StepScalars = StepScalars(
    step: u32, ts: i64, priorTs: i64, underlying: u64, priorUnderlying: u64,
    spreadCapture: i64, fees: i64, stepPnl: i64, legCount: nat)

  datatype AttributionRow = AttributionRow(
    step: u32, ts: i64, theta: i64, delta: i64, vega: i64, spreadCapture: i64, fees: i64, residual: i64)

  function CheckedI64(n: int): Result<i64, Error>
  {
    if FitsI64(n) then Ok(n) else Err(ArithmeticOverflow)
  }

  function RoundToCents(x: real): Result<i64, Error>
  {
    CheckedI64(RoundHalfEven(x))
  }

  /** `quantity * multiplier`, signed by the side: the only quantity multiplication. */
  function SignedWeight(leg: Leg): int
  {
    var q: int, m: int := leg.quantity, leg.multiplier;
    if leg.side.Long? then q * m else -(q * m)
  }

  /** The market moves of a step. */
  datatype Moves = Moves(days: real, underlyingCents: real)

  function StepMoves(s: StepScalars): Result<Moves, Error>
  {
    var dt :- CheckedI64((s.ts as int) - (s.priorTs as int));
    var now :- CheckedI64(s.underlying);
    var prior :- CheckedI64(s.priorUnderlying);
    var ds :- CheckedI64((now as int) - (prior as int));
    Ok(Moves(dt as real / NANOS_PER_DAY as real, ds as real))
  }

  /** Theta, delta and vega terms, in exact cents. */
  datatype Terms = Terms(theta: real, delta: real, vega: real)

  const NO_TERMS := Terms(0.0, 0.0, 0.0)

  function Plus(a: Terms, b: Terms): Terms
  {
    Terms(a.theta + b.theta, a.delta + b.delta, a.vega + b.vega)
  }

  function Negate(a: Terms): Terms
  {
    Terms(-a.theta, -a.delta, -a.vega)
  }

  /** The contribution of one contract held long. */
  function UnitTerms(g: UnitGreeks, currentIv: real, m: Moves): Terms
  {
    Terms(g.theta * m.days * DOLLARS_TO_CENTS as real,
          g.delta * m.underlyingCents,
          g.vega * ((currentIv - g.iv) * IV_DECIMAL_TO_PP as real) * DOLLARS_TO_CENTS as real)
  }

  function Scale(t: Terms, w: int): Terms
  {
    Terms(t.theta * w as real, t.delta * w as real, t.vega * w as real)
  }

  /** The contribution of one leg; a leg without prior Greeks contributes nothing. */
  function LegTerms(leg: Leg, m: Moves): Terms
  {
    match leg.priorGreeks
    case None => NO_TERMS
    case Some(g) => Scale(UnitTerms(g, leg.currentIv, m), SignedWeight(leg))
  }

  /** The exact sums over the legs. */
  function SumTerms(legs: seq<Leg>, m: Moves): Terms
  {
    if legs == [] then NO_TERMS else Plus(SumTerms(legs[..|legs| - 1], m), LegTerms(legs[|legs| - 1], m))
  }

  /** Close the identity on already rounded terms, every intermediate sum checked. */
  function Close(s: StepScalars, theta: i64, delta: i64, vega: i64): Result<AttributionRow, Error>
  {
    var a :- CheckedI64((theta as int) + (delta as int));
    var b :- CheckedI64((a as int) + (vega as int));
    var c :- CheckedI64((b as int) + (s.spreadCapture as int));
    var attributed :- CheckedI64((c as int) - (s.fees as int));
    var residual :- CheckedI64((s.stepPnl as int) - (attributed as int));
    Ok(AttributionRow(s.step, s.ts, theta, delta, vega, s.spreadCapture, s.fees, residual))
  }

  function RowOf(s: StepScalars, t: Terms): Result<AttributionRow, Error>
  {
    var theta :- RoundToCents(t.theta);
    var delta :- RoundToCents(t.delta);
    var vega :- RoundToCents(t.vega);
    Close(s, theta, delta, vega)
  }

  function StepRow(s: StepScalars, legs: seq<Leg>): Result<AttributionRow, Error>
  {
    var m :- StepMoves(s);
    RowOf(s, SumTerms(legs, m))
  }

  // ---- What a row reports, written out ------------------------------------

  /** Contracts held, negative when they are short. */
  function Held(leg: Leg): real
  {
    (if leg.side.Long? then 1.0 else -1.0) * leg.quantity as real * leg.multiplier as real
  }

  /** Daily theta in dollars, over the days of the step, in cents. */
  function ThetaOf(s: StepScalars, legs: seq<Leg>): real
  {
    if legs == [] then 0.0
    else
      var leg := legs[|legs| - 1];
      ThetaOf(s, legs[..|legs| - 1]) +
      match leg.priorGreeks
      case None => 0.0
      case Some(g) => Held(leg) * (g.theta * ((s.ts - s.priorTs) as real / 86_400_000_000_000.0) * 100.0)
  }

  /** Delta over the move of the underlying, which is in cents already. */
  function DeltaOf(s: StepScalars, legs: seq<Leg>): real
  {
    if legs == [] then 0.0
    else
      var leg := legs[|legs| - 1];
      DeltaOf(s, legs[..|legs| - 1]) +
      match leg.priorGreeks
      case None => 0.0
      case Some(g) => Held(leg) * (g.delta * (s.underlying - s.priorUnderlying) as real)
  }

  /** Vega in dollars per percentage point, over the move of the implied volatility, in cents. */
  function VegaOf(s: StepScalars, legs: seq<Leg>): real
  {
    if legs == [] then 0.0
    else
      var leg := legs[|legs| - 1];
      VegaOf(s, legs[..|legs| - 1]) +
      match leg.priorGreeks
      case None => 0.0
      case Some(g) => Held(leg) * (g.vega * ((leg.currentIv - g.iv) * 100.0) * 100.0)
  }

  /** The integer nearest to a number, the even one of two. */
  predicate Nearest(x: real, n: int)
  {
    -0.5 <= n as real - x <= 0.5 && (n as real - x == 0.5 || n as real - x == -0.5 ==> n % 2 == 0)
  }

  /** The row of a step, term by term, with every checked intermediate in range. */
  predicate Reports(s: StepScalars, legs: seq<Leg>, r: AttributionRow)
  {
    && FitsI64(s.ts - s.priorTs) && s.underlying <= I64_MAX && s.priorUnderlying <= I64_MAX
    && r.step == s.step && r.ts == s.ts && r.spreadCapture == s.spreadCapture && r.fees == s.fees
    && Nearest(ThetaOf(s, legs), r.theta) && Nearest(DeltaOf(s, legs), r.delta) && Nearest(VegaOf(s, legs), r.vega)
    && FitsI64(r.theta + r.delta) && FitsI64(r.theta + r.delta + r.vega)
    && FitsI64(r.theta + r.delta + r.vega + r.spreadCapture)
    && FitsI64(r.theta + r.delta + r.vega + r.spreadCapture - r.fees)
    && r.residual == s.stepPnl - (r.theta + r.delta + r.vega + r.spreadCapture - r.fees)
  }

  lemma LegTermsAre(leg: Leg, g: UnitGreeks, m: Moves)
    requires leg.priorGreeks == Some(g)
    ensures LegTerms(leg, m).theta == Held(leg) * (g.theta * m.days * 100.0)
    ensures LegTerms(leg, m).delta == Held(leg) * (g.delta * m.underlyingCents)
    ensures LegTerms(leg, m).vega == Held(leg) * (g.vega * ((leg.currentIv - g.iv) * 100.0) * 100.0)
  {
    WeightIsHeld(leg);
    var t := UnitTerms(g, leg.currentIv, m);
    assert t.theta == g.theta * m.days * 100.0;
    assert t.vega == g.vega * ((leg.currentIv - g.iv) * 100.0) * 100.0;
  }

  lemma WeightIsHeld(leg: Leg)
    ensures SignedWeight(leg) as real == Held(leg)
  {
    ProductAsReal(leg.quantity, leg.multiplier);
  }

  lemma {:induction false} ProductAsReal(q: nat, m: nat)
    ensures (q * m) as real == q as real * m as real
  {
    if q > 0 {
      ProductAsReal(q - 1, m);
      assert q * m == (q - 1) * m + m;
      assert q as real * m as real == (q - 1) as real * m as real + m as real;
    } else {
      assert q * m == 0;
    }
  }

  lemma {:induction false} SumsAre(s: StepScalars, legs: seq<Leg>, m: Moves)
    requires StepMoves(s) == Ok(m)
    ensures SumTerms(legs, m) == Terms(ThetaOf(s, legs), DeltaOf(s, legs), VegaOf(s, legs))
  {
    hide LegTerms, Held;
    if legs != [] {
      var leg := legs[|legs| - 1];
      SumsAre(s, legs[..|legs| - 1], m);
      if leg.priorGreeks.Some? {
        LegTermsAre(leg, leg.priorGreeks.value, m);
      } else {
        NoLegTerms(leg, m);
      }
    }
  }

  lemma NoLegTerms(leg: Leg, m: Moves)
    ensures leg.priorGreeks.None? ==> LegTerms(leg, m) == NO_TERMS
  {
  }

  lemma RoundsTo(x: real, n: int)
    ensures RoundToCents(x) == Ok(n) <==> Nearest(x, n) && FitsI64(n)
  {
    RoundsToNearest(x, n);
    RoundsToNearest(x, RoundHalfEven(x));
  }

  /** One step, both ways: the row of a step is the one that reports it, and there is none exactly when none does. */
  lemma StepReports(s: StepScalars, legs: seq<Leg>, r: AttributionRow)
    ensures StepRow(s, legs) == Ok(r) <==> Reports(s, legs, r)
  {
    hide SumTerms, RoundToCents, Nearest, ThetaOf, DeltaOf, VegaOf;
    if StepMoves(s).Ok? {
      SumsAre(s, legs, StepMoves(s).value);
    }
    RoundsTo(ThetaOf(s, legs), r.theta);
    RoundsTo(DeltaOf(s, legs), r.delta);
    RoundsTo(VegaOf(s, legs), r.vega);
  }

  /** `attribute_step`: three accumulators over the legs, one rounding each. */
  method AttributeStep(s: StepScalars, legs: seq<Leg>) returns (r: Result<AttributionRow, Error>)
    ensures r == StepRow(s, legs)
    ensures forall row :: r == Ok(row) <==> Reports(s, legs, row)
  {
    hide LegTerms, RowOf, Reports;
    var moves := StepMoves(s);
    if moves.Err? {
      forall row ensures StepRow(s, legs) == Ok(row) <==> Reports(s, legs, row) { StepReports(s, legs, row); }
      return Err(moves.error);
    }
    var m := moves.value;
    var acc := NO_TERMS;
    var i := 0;
    while i < |legs|
      invariant 0 <= i <= |legs| && acc == SumTerms(legs[..i], m)
    {
      assert legs[..i + 1][..i] == legs[..i];
      acc := Plus(acc, LegTerms(legs[i], m));
      i := i + 1;
    }
    assert legs[..i] == legs;
    r := RowOf(s, acc);
    forall row ensures StepRow(s, legs) == Ok(row) <==> Reports(s, legs, row) { StepReports(s, legs, row); }
  }

  // ---- attribute: the walk over the flat buffer ---------------------------

  datatype Substrate = Substrate(steps: seq<StepScalars>, legs: seq<Leg>)

  /** Where the legs of step `n` start: after the legs of every earlier step. */
  function Offset(steps: seq<StepScalars>, n: nat): nat
    requires n <= |steps|
  {
    if n == 0 then 0 else Offset(steps, n - 1) + steps[n - 1].legCount
  }

  function LegsOf(sub: Substrate, n: nat): seq<Leg>
    requires n < |sub.steps| && Offset(sub.steps, n + 1) <= |sub.legs|
  {
    sub.legs[Offset(sub.steps, n)..Offset(sub.steps, n + 1)]
  }

  /** The row of step `n`, from its own slice of the buffer; a slice past the end is an error. */
  function RowAt(sub: Substrate, n: nat): Result<AttributionRow, Error>
    requires n < |sub.steps|
  {
    if Offset(sub.steps, n + 1) > |sub.legs| then Err(Error.Bundle) else StepRow(sub.steps[n], LegsOf(sub, n))
  }

  /** The rows of a successful attribution, one per step. */
  ghost predicate Attributed(sub: Substrate, rows: seq<AttributionRow>, n: nat)
    requires n <= |sub.steps|
  {
    |rows| == n && forall k | 0 <= k < n :: RowAt(sub, k) == Ok(rows[k])
  }

  /** Every step finds its slice and closes. */
  ghost predicate Attributable(sub: Substrate)
  {
    forall k | 0 <= k < |sub.steps| :: RowAt(sub, k).Ok?
  }

  lemma {:induction false} OffsetMonotone(steps: seq<StepScalars>, a: nat, b: nat)
    requires a <= b <= |steps|
    ensures Offset(steps, a) <= Offset(steps, b)
  {
    if a < b {
      OffsetMonotone(steps, a, b - 1);
    }
  }

  /** Every row reports its step, from the legs after those of the steps before. */
  ghost predicate AllReported(sub: Substrate, rows: seq<AttributionRow>)
  {
    |rows| == |sub.steps| && forall n | 0 <= n < |rows| ::
      Offset(sub.steps, n + 1) <= |sub.legs| && Reports(sub.steps[n], LegsOf(sub, n), rows[n])
  }

  lemma AttributedReports(sub: Substrate, rows: seq<AttributionRow>)
    ensures Attributed(sub, rows, |sub.steps|) <==> AllReported(sub, rows)
  {
    hide StepRow, Reports;
    if |rows| == |sub.steps| {
      forall n | 0 <= n < |rows|
        ensures RowAt(sub, n) == Ok(rows[n]) <==>
                Offset(sub.steps, n + 1) <= |sub.legs| && Reports(sub.steps[n], LegsOf(sub, n), rows[n])
      {
        if Offset(sub.steps, n + 1) <= |sub.legs| {
          StepReports(sub.steps[n], LegsOf(sub, n), rows[n]);
        }
      }
    }
  }

  method Attribute(sub: Substrate) returns (r: Result<seq<AttributionRow>, Error>)
    ensures r.Ok? <==> Attributable(sub)
    ensures r.Ok? ==> Attributed(sub, r.value, |sub.steps|) && AllReported(sub, r.value)
  {
    hide StepRow, AllReported, Reports;
    var rows: seq<AttributionRow> := [];
    var offset := 0;
    var n := 0;
    while n < |sub.steps|
      invariant 0 <= n <= |sub.steps| && offset == Offset(sub.steps, n) <= |sub.legs|
      invariant Attributed(sub, rows, n)
    {
      var step := sub.steps[n];
      var end := offset + step.legCount;
      assert end == Offset(sub.steps, n + 1);
      if end > |sub.legs| {
        assert RowAt(sub, n) == Err(Error.Bundle);
        return Err(Error.Bundle);
      }
      var row := AttributeStep(step, sub.legs[offset..end]);
      assert RowAt(sub, n) == row;
      if row.Err? {
        return Err(row.error);
      }
      offset := end;
      rows := rows + [row.value];
      n := n + 1;
    }
    AttributedReports(sub, rows);
    return Ok(rows);
  }

  // ---- The identity -------------------------------------------------------

  /** Every row closes exactly in integer cents, whatever the rounding did. */
  lemma RowCloses(s: StepScalars, legs: seq<Leg>)
    requires StepRow(s, legs).Ok?
    ensures var r := StepRow(s, legs).value;
            (r.theta as int) + r.delta + r.vega + r.spreadCapture - r.fees + r.residual == s.stepPnl
    ensures var r := StepRow(s, legs).value;
            r.step == s.step && r.ts == s.ts && r.spreadCapture == s.spreadCapture && r.fees == s.fees
  {
    hide SumTerms, RoundToCents;
  }

  function TotalPnl(steps: seq<StepScalars>, n: nat): int
    requires n <= |steps|
  {
    if n == 0 then 0 else TotalPnl(steps, n - 1) + steps[n - 1].stepPnl
  }

  function TotalAttributed(rows: seq<AttributionRow>, n: nat): int
    requires n <= |rows|
  {
    if n == 0 then 0
    else
      var r := rows[n - 1];
      TotalAttributed(rows, n - 1) + r.theta + r.delta + r.vega + r.spreadCapture - r.fees + r.residual
  }

  /** The rows telescope to the total P&L of any prefix of the run. */
  lemma {:induction false} RowsTelescope(sub: Substrate, rows: seq<AttributionRow>, n: nat)
    requires Attributed(sub, rows, |sub.steps|) && n <= |sub.steps|
    ensures TotalAttributed(rows, n) == TotalPnl(sub.steps, n)
  {
    hide StepRow, Offset, LegsOf;
    if n > 0 {
      RowsTelescope(sub, rows, n - 1);
      assert RowAt(sub, n - 1) == Ok(rows[n - 1]);
      RowCloses(sub.steps[n - 1], LegsOf(sub, n - 1));
    }
  }

  /** Legs beyond the last step's slice are never read: a surplus is not detected. */
  lemma SurplusLegsIgnored(sub: Substrate, extra: seq<Leg>, rows: seq<AttributionRow>)
    requires Offset(sub.steps, |sub.steps|) <= |sub.legs|
    ensures var surplus := sub.(legs := sub.legs + extra);
            && (Attributable(surplus) <==> Attributable(sub))
            && (Attributed(surplus, rows, |sub.steps|) <==> Attributed(sub, rows, |sub.steps|))
  {
    hide StepRow, Offset;
    var surplus := sub.(legs := sub.legs + extra);
    forall k | 0 <= k < |sub.steps| ensures RowAt(surplus, k) == RowAt(sub, k) {
      OffsetMonotone(sub.steps, k + 1, |sub.steps|);
      OffsetMonotone(sub.steps, k, k + 1);
      assert LegsOf(surplus, k) == LegsOf(sub, k);
    }
  }

  // ---- Exact terms --------------------------------------------------------

  lemma {:induction false} SumAppend(a: seq<Leg>, b: seq<Leg>, m: Moves)
    ensures SumTerms(a + b, m) == Plus(SumTerms(a, m), SumTerms(b, m))
    decreases |b|
  {
    hide LegTerms;
    if b == [] {
      assert a + b == a;
    } else {
      assert (a + b)[..|a + b| - 1] == a + b[..|b| - 1];
      SumAppend(a, b[..|b| - 1], m);
    }
  }

  /** The order of the legs of a step does not matter. */
  lemma {:induction false} LegOrderIrrelevant(a: seq<Leg>, b: seq<Leg>, m: Moves)
    requires multiset(a) == multiset(b)
    ensures SumTerms(a, m) == SumTerms(b, m)
    decreases |a|
  {
    hide LegTerms;
    if a == [] {
      assert |multiset(b)| == |b|;
    } else {
      var n := |a| - 1;
      var last := a[n];
      assert Drop(a, n) == a[..n];
      DropMultiset(a, n);
      assert last in multiset(a);
      var k := PositionOf(last, b);
      DropMultiset(b, k);
      LegOrderIrrelevant(a[..n], Drop(b, k), m);
      SumWithout(b, k, m);
    }
  }

  lemma SumOne(leg: Leg, m: Moves)
    ensures SumTerms([leg], m) == LegTerms(leg, m)
  {
    assert [leg][..0] == [];
  }

  lemma SumWithout(legs: seq<Leg>, k: nat, m: Moves)
    requires k < |legs|
    ensures SumTerms(legs, m) == Plus(SumTerms(Drop(legs, k), m), LegTerms(legs[k], m))
  {
    hide LegTerms;
    var a, x, b := legs[..k], [legs[k]], legs[k + 1..];
    assert legs == a + (x + b);
    SumAppend(a, x + b, m);
    SumAppend(x, b, m);
    SumAppend(a, b, m);
    assert x[..0] == [];
  }

  /** One leg split into two of the same contract and side, the quantities adding up. */
  lemma SplitLegIrrelevant(leg: Leg, part: u32, m: Moves)
    requires part <= leg.quantity
    ensures Plus(LegTerms(leg.(quantity := part), m), LegTerms(leg.(quantity := leg.quantity - part), m)) ==
            LegTerms(leg, m)
  {
    var q: int, p: int, k: int := leg.quantity, part, leg.multiplier;
    assert p * k + (q - p) * k == q * k;
    if leg.priorGreeks.Some? {
      var u := UnitTerms(leg.priorGreeks.value, leg.currentIv, m);
      ScaleAdds(u, SignedWeight(leg.(quantity := part)), SignedWeight(leg.(quantity := leg.quantity - part)));
    }
  }

  /** And so the terms of the step are unchanged by splitting any one of its legs. */
  lemma SplitInStep(legs: seq<Leg>, k: nat, part: u32, m: Moves)
    requires k < |legs| && part <= legs[k].quantity
    ensures var halves := [legs[k].(quantity := part), legs[k].(quantity := legs[k].quantity - part)];
            SumTerms(legs[..k] + (halves + legs[k + 1..]), m) == SumTerms(legs, m)
  {
    hide LegTerms, SumTerms;
    var a, x, b := legs[..k], legs[k], legs[k + 1..];
    var one, two := x.(quantity := part), x.(quantity := x.quantity - part);
    SplitLegIrrelevant(x, part, m);
    SumAppend(a, [one, two] + b, m);
    SumAppend([one, two], b, m);
    SumAppend([one], [two], m);
    SumOne(one, m);
    SumOne(two, m);
    assert [one, two] == [one] + [two];
    SumWithout(legs, k, m);
    SumAppend(a, b, m);
  }

  lemma ScaleAdds(t: Terms, a: int, b: int)
    ensures Plus(Scale(t, a), Scale(t, b)) == Scale(t, a + b)
  {
    assert (a + b) as real == a as real + b as real;
  }

  function Flip(leg: Leg): Leg
  {
    leg.(side := if leg.side.Long? then Short else Long)
  }

  function FlipAll(legs: seq<Leg>): (r: seq<Leg>)
    ensures |r| == |legs| && forall i | 0 <= i < |legs| :: r[i] == Flip(legs[i])
  {
    seq(|legs|, i requires 0 <= i < |legs| => Flip(legs[i]))
  }

  lemma FlipNegates(leg: Leg, m: Moves)
    ensures LegTerms(Flip(leg), m) == Negate(LegTerms(leg, m))
  {
    if leg.priorGreeks.Some? {
      var u := UnitTerms(leg.priorGreeks.value, leg.currentIv, m);
      ScaleAdds(u, SignedWeight(leg), SignedWeight(Flip(leg)));
      assert SignedWeight(Flip(leg)) == -SignedWeight(leg);
    }
  }

  lemma {:induction false} FlipAllNegates(legs: seq<Leg>, m: Moves)
    ensures SumTerms(FlipAll(legs), m) == Negate(SumTerms(legs, m))
  {
    hide LegTerms;
    if legs != [] {
      var init := legs[..|legs| - 1];
      assert FlipAll(legs)[..|legs| - 1] == FlipAll(init);
      FlipAllNegates(init, m);
      FlipNegates(legs[|legs| - 1], m);
    }
  }

  /** Flipping every side negates the rounded cents of every term, ties included. */
  lemma FlippedRowNegates(s: StepScalars, legs: seq<Leg>)
    requires StepRow(s, legs).Ok? && StepRow(s, FlipAll(legs)).Ok?
    ensures var r, f := StepRow(s, legs).value, StepRow(s, FlipAll(legs)).value;
            (f.theta as int) == -(r.theta as int) && (f.delta as int) == -(r.delta as int) &&
                (f.vega as int) == -(r.vega as int)
  {
    hide SumTerms, RoundHalfEven;
    var m := StepMoves(s).value;
    var t := SumTerms(legs, m);
    FlipAllNegates(legs, m);
    RoundOddSymmetry(t.theta);
    RoundOddSymmetry(t.delta);
    RoundOddSymmetry(t.vega);
  }

  /** Rounding moves the residual by at most a cent and a half from the exact remainder. */
  lemma ResidualWithinRounding(s: StepScalars, legs: seq<Leg>)
    requires StepRow(s, legs).Ok?
    ensures var r, t := StepRow(s, legs).value, SumTerms(legs, StepMoves(s).value);
            var exact := s.stepPnl as real - (t.theta + t.delta + t.vega + s.spreadCapture as real - s.fees as real);
            -1.5 <= r.residual as real - exact <= 1.5
  {
    hide SumTerms, RoundHalfEven;
    var t := SumTerms(legs, StepMoves(s).value);
    RoundsToNearest(t.theta, RoundHalfEven(t.theta));
    RoundsToNearest(t.delta, RoundHalfEven(t.delta));
    RoundsToNearest(t.vega, RoundHalfEven(t.vega));
    RowCloses(s, legs);
  }

  /** When the exact terms are whole cents nothing is rounded, and the residual is the exact remainder. */
  lemma WholeCentsExact(s: StepScalars, legs: seq<Leg>, theta: int, delta: int, vega: int)
    requires StepRow(s, legs).Ok?
    requires SumTerms(legs, StepMoves(s).value) == Terms(theta as real, delta as real, vega as real)
    ensures var r := StepRow(s, legs).value;
            (r.residual as int) == s.stepPnl - (theta + delta + vega + s.spreadCapture - s.fees)
  {
    hide SumTerms, RoundHalfEven;
    RoundExact(theta);
    RoundExact(delta);
    RoundExact(vega);
  }
}
