/**
 The materialised tape: pushes under a budget, and the final sequence check
 (src/data/feed.rs, src/data/historical.rs).
 */
module Tape {
  import opened Common
  import opened Market

  /** The proportional byte estimate of one snapshot. */
  function Footprint(s: ChainSnapshot, lim: Limits): nat
  {
    |s.quotes| * lim.quoteSize + lim.snapshotSize
  }

  function TotalBytes(tape: seq<ChainSnapshot>, lim: Limits): nat
  {
    if tape == [] then 0
    else TotalBytes(tape[..|tape| - 1], lim) + Footprint(tape[|tape| - 1], lim)
  }

  /** `push_checked` on values: every ceiling comes before the push. */
  function Push(tape: seq<ChainSnapshot>, s: ChainSnapshot, lim: Limits): Result<seq<ChainSnapshot>, Error>
  {
    if !FitsU64(|tape| + 1) then Err(ArithmeticOverflow)
    else if |tape| + 1 > lim.maxSteps then Err(TapeTooLarge(MaxSteps))
    else if !FitsU64(Footprint(s, lim)) then Err(ArithmeticOverflow)
    else if !FitsU64(TotalBytes(tape, lim) + Footprint(s, lim)) then Err(ArithmeticOverflow)
    else if TotalBytes(tape, lim) + Footprint(s, lim) > lim.maxTotalBytes then Err(TapeTooLarge(MaxTotalBytes))
    else Ok(tape + [s])
  }

  /** What both materialisers keep at every step. */
  predicate WithinBudget(tape: seq<ChainSnapshot>, lim: Limits)
  {
    |tape| <= lim.maxSteps && TotalBytes(tape, lim) <= lim.maxTotalBytes
  }

  function QuoteCount(tape: seq<ChainSnapshot>): nat
  {
    if tape == [] then 0 else QuoteCount(tape[..|tape| - 1]) + |tape[|tape| - 1].quotes|
  }

  /** The estimate of a tape: so much for every quote, and so much for every snapshot. */
  lemma {:induction false} BytesOfQuotes(tape: seq<ChainSnapshot>, lim: Limits)
    ensures TotalBytes(tape, lim) == QuoteCount(tape) * lim.quoteSize + |tape| * lim.snapshotSize
  {
    if tape != [] {
      BytesOfQuotes(tape[..|tape| - 1], lim);
      Distributes(QuoteCount(tape[..|tape| - 1]), |tape[|tape| - 1].quotes|, lim.quoteSize);
      Distributes(|tape| - 1, 1, lim.snapshotSize);
    }
  }

  lemma Distributes(a: nat, b: nat, size: nat)
    ensures (a + b) * size == a * size + b * size
  {
  }

  /** What a budget allows it allows for every beginning of the tape. */
  lemma {:induction false} BudgetOfPrefix(tape: seq<ChainSnapshot>, n: nat, lim: Limits)
    requires WithinBudget(tape, lim) && n <= |tape|
    ensures WithinBudget(tape[..n], lim)
    decreases |tape|
  {
    hide Footprint;
    if n < |tape| {
      var init := tape[..|tape| - 1];
      assert init[..n] == tape[..n];
      BudgetOfPrefix(init, n, lim);
    } else {
      assert tape[..n] == tape;
    }
  }

  /** A snapshot is pushed exactly when the longer tape is within the budget. */
  lemma PushIff(tape: seq<ChainSnapshot>, s: ChainSnapshot, lim: Limits)
    ensures Push(tape, s, lim) == (if WithinBudget(tape + [s], lim) then Ok(tape + [s]) else Push(tape, s, lim))
    ensures Push(tape, s, lim).Ok? <==> WithinBudget(tape + [s], lim)
  {
    hide Footprint;
    assert (tape + [s])[..|tape|] == tape;
  }

  class TapeBuilder {
    var tape: seq<ChainSnapshot>
    var totalBytes: nat
    const lim: Limits

    ghost predicate Valid()
      reads this
    {
      totalBytes == TotalBytes(tape, lim) && WithinBudget(tape, lim)
    }

    constructor (lim: Limits)
      ensures Valid() && tape == [] && this.lim == lim
    {
      this.lim := lim;
      tape := [];
      totalBytes := 0;
    }

    method PushChecked(s: ChainSnapshot) returns (r: Result<(), Error>)
      requires Valid()
      modifies this
      ensures Valid()
      ensures match Push(old(tape), s, lim)
              case Ok(t) => r == Ok(()) && tape == t == old(tape) + [s]
              case Err(e) => r == Err(e) && tape == old(tape) && totalBytes == old(totalBytes)
    {
      if !FitsU64(|tape| + 1) {
        return Err(ArithmeticOverflow);
      }
      if |tape| + 1 > lim.maxSteps {
        return Err(TapeTooLarge(MaxSteps));
      }
      var bytes := Footprint(s, lim);
      if !FitsU64(bytes) || !FitsU64(totalBytes + bytes) {
        return Err(ArithmeticOverflow);
      }
      if totalBytes + bytes > lim.maxTotalBytes {
        return Err(TapeTooLarge(MaxTotalBytes));
      }
      totalBytes := totalBytes + bytes;
      tape := tape + [s];
      assert tape[..|tape| - 1] == old(tape);
      return Ok(());
    }
  }

  // ---- TapeMeta::from_tape ------------------------------------------------

  datatype TapeMeta = TapeMeta(firstTs: i64, finalStep: u32)

  /** Consecutive steps from 0 and timestamps increasing over every pair, near or far. */
  ghost predicate WellSequenced(tape: seq<ChainSnapshot>)
  {
    && (forall i | 0 <= i < |tape| :: tape[i].step == i)
    && (forall i, j | 0 <= i < j < |tape| :: tape[i].ts < tape[j].ts)
  }

  /** The adjacent checks establish the global order; nothing well sequenced is refused. */
  method FromTape(tape: seq<ChainSnapshot>) returns (r: Result<TapeMeta, Error>)
    ensures r.Ok? <==> tape != [] && WellSequenced(tape)
    ensures r.Ok? ==> r.value == TapeMeta(tape[0].ts, tape[|tape| - 1].step)
    ensures r == Sequence(tape)
  {
    if tape == [] {
      return Err(Conversion);
    }
    if tape[0].step != 0 {
      return Err(Conversion);
    }
    var prev: int, prevStep: int := tape[0].ts, tape[0].step;
    var i := 1;
    while i < |tape|
      invariant 1 <= i <= |tape|
      invariant prev == tape[i - 1].ts && prevStep == tape[i - 1].step
      invariant WellSequenced(tape[..i])
      invariant Sequence(tape) == SequenceFrom(tape, i)
    {
      assert tape[..i][i - 1] == tape[i - 1];
      if tape[i].ts <= prev {
        return Err(DataOutOfOrder);
      }
      if !FitsU32(prevStep + 1) {
        assert tape[i].step != i;
        return Err(ArithmeticOverflow);
      }
      if tape[i].step != prevStep + 1 {
        return Err(Conversion);
      }
      assert tape[..i + 1] == tape[..i] + [tape[i]];
      prev, prevStep := tape[i].ts, tape[i].step;
      i := i + 1;
    }
    assert tape[..i] == tape;
    return Ok(TapeMeta(tape[0].ts, prevStep));
  }

  function SequenceFrom(tape: seq<ChainSnapshot>, i: nat): Result<TapeMeta, Error>
    requires 1 <= i <= |tape|
    decreases |tape| - i
  {
    if i == |tape| then Ok(TapeMeta(tape[0].ts, tape[i - 1].step))
    else if tape[i].ts <= tape[i - 1].ts then Err(DataOutOfOrder)
    else if !FitsU32(tape[i - 1].step + 1) then Err(ArithmeticOverflow)
    else if tape[i].step != tape[i - 1].step + 1 then Err(Conversion)
    else SequenceFrom(tape, i + 1)
  }

  function Sequence(tape: seq<ChainSnapshot>): Result<TapeMeta, Error>
  {
    if tape == [] || tape[0].step != 0 then Err(Conversion) else SequenceFrom(tape, 1)
  }

  lemma {:induction false} SequenceFromComplete(tape: seq<ChainSnapshot>, i: nat)
    requires 1 <= i <= |tape| && WellSequenced(tape[..i])
    ensures SequenceFrom(tape, i).Ok? <==> WellSequenced(tape)
    decreases |tape| - i
  {
    if i == |tape| {
      assert tape[..i] == tape;
    } else {
      assert tape[..i][i - 1] == tape[i - 1];
      if tape[i - 1].ts < tape[i].ts && tape[i].step == tape[i - 1].step + 1 {
        assert tape[..i + 1] == tape[..i] + [tape[i]];
        SequenceFromComplete(tape, i + 1);
      }
    }
  }

  lemma SequenceComplete(tape: seq<ChainSnapshot>)
    ensures Sequence(tape).Ok? <==> tape != [] && WellSequenced(tape)
  {
    if tape != [] && tape[0].step == 0 {
      SequenceFromComplete(tape, 1);
    }
  }

  // ---- Reading a tape -----------------------------------------------------

  /** A pull-only view of a materialised tape with its own cursor (`ParquetFeed::next`, `SharedParquetTape::feed`). */
  class TapeFeed {
    const tape: seq<ChainSnapshot>
    var cursor: nat

    /** Over a tape any number of feeds may share, from its start. */
    constructor (tape: seq<ChainSnapshot>)
      ensures Valid() && this.tape == tape && Pulled() == [] && Remaining() == tape
    {
      this.tape, cursor := tape, 0;
    }

    ghost predicate Valid()
      reads this
    {
      cursor <= |tape|
    }

    ghost function Pulled(): seq<ChainSnapshot>
      reads this
    {
      if Valid() then tape[..cursor] else tape
    }

    ghost function Remaining(): seq<ChainSnapshot>
      reads this
    {
      if Valid() then tape[cursor..] else []
    }

    /** The next snapshot in tape order, never one further on; `None` at the end, and again on every call after it. */
    method Next() returns (s: Option<ChainSnapshot>)
      requires Valid()
      modifies this`cursor
      ensures Valid() && Pulled() + Remaining() == tape
      ensures match s
              case Some(snapshot) => old(Remaining()) == [snapshot] + Remaining() &&
                  Pulled() == old(Pulled()) + [snapshot]
              case None => Remaining() == [] == old(Remaining()) && Pulled() == old(Pulled())
    {
      if cursor < |tape| {
        cursor := cursor + 1;
        return Some(tape[cursor - 1]);
      }
      return None;
    }
  }
}
