/**
 Draining one simulator session over a network that may lose, delay, duplicate
 and reorder requests and lose responses (src/data/simulator.rs).
 */
module Session {
  import opened Common
  import opened Sorting
  import opened Market
  import opened Convert
  import opened Tape
  import TapeHash

  // ---- The wire shape and its conversion ----------------------------------

  /**
   One side of a contract; a dollar price is already the outcome of its cents
   conversion. An expiration is any instant a calendar date names, in nanoseconds.
   */
  datatype SideResponse = SideResponse(
    bid: Option<Result<u64, Error>>, ask: Option<Result<u64, Error>>, delta: Option<Analytic>)

  datatype ContractResponse = ContractResponse(
    strike: Result<u64, Error>, expiration: Option<int>, iv: Option<Analytic>, gamma: Option<Analytic>,
    call: SideResponse, put: SideResponse)

  /** The payload of one advance; `ts` is `None` when the timestamp does not parse. */
  datatype Chain = Chain(underlying: string, ts: Option<i64>, price: Result<u64, Error>,
      contracts: seq<ContractResponse>)

  datatype Instrument = Instrument(tick: u64, multiplier: u32, quoteSize: u32)

  function OrZero(a: Option<Analytic>): Analytic
  {
    if a.Some? then a.value else NO_GREEK
  }

  function SideQuote(side: SideResponse, expiration: int, strike: u64, style: Style, iv: Analytic, gamma: Analytic,
      size: u32)
    : Result<RawQuote, Error>
  {
    var bidCell :- Require(side.bid);
    var askCell :- Require(side.ask);
    var bid :- bidCell;
    var ask :- askCell;
    Ok(RawQuote(DateTime(expiration), strike, style, bid, ask, size, size,
                iv, OrZero(side.delta), gamma, NO_GREEK, NO_GREEK))
  }

  /** A call quote and a put quote for every contract row, in row order. */
  function RawQuotes(contracts: seq<ContractResponse>, size: u32): Result<seq<RawQuote>, Error>
  {
    if contracts == [] then Ok([])
    else
      var c := contracts[0];
      var strike :- c.strike;
      var expiration :- Require(c.expiration);
      var iv :- Require(c.iv);
      var callQuote :- SideQuote(c.call, expiration, strike, Call, iv, OrZero(c.gamma), size);
      var putQuote :- SideQuote(c.put, expiration, strike, Put, iv, OrZero(c.gamma), size);
      var rest :- RawQuotes(contracts[1..], size);
      Ok([callQuote, putQuote] + rest)
  }

  /** `chain_response_to_snapshot`. */
  function ChainToSnapshot(chain: Chain, step: u32, ins: Instrument, anchor: i64): Result<ChainSnapshot, Error>
  {
    var underlying :- NewUnderlying(chain.underlying);
    var ts :- Require(chain.ts);
    var price :- chain.price;
    var quotes :- RawQuotes(chain.contracts, ins.quoteSize);
    Snapshot(SnapshotMeta(ts, step, anchor, underlying, price, ins.tick, ins.multiplier), quotes)
  }

  // ---- The server ----------------------------------------------------------

  /** A served advance: the payload and the server's own counters after it. */
  datatype Reply = Served(chain: Chain, currentStep: nat, totalSteps: nat) | Refused

  /**
   The walk one session serves: the payload of every step, and the total the
   server reports after it. The total may change, or never be reached.
   */
  datatype Walk = Walk(chain: nat -> Chain, total: nat -> nat) {
    function ReplyAt(c: nat): Reply
    {
      Served(chain(c), c + 1, total(c + 1))
    }

    predicate EndsAt(c: nat)
    {
      c >= total(c)
    }
  }

  /** What happens to one attempt: which earlier requests arrive first, then the request itself. */
  datatype Plan = Plan(stale: seq<nat>, fate: Fate)

  datatype Fate = NeverArrives | ResponseLost | ServerError | Answered

  const ATTEMPTS := 3

  /** The attempt expecting `e` reaches an untouched cursor and its answer comes back. */
  predicate Delivers(plan: Plan, e: nat)
  {
    e !in plan.stale && plan.fate.Answered?
  }

  /** The cursor moves past `e` in this attempt without the client learning of it. */
  predicate Loses(plan: Plan, e: nat)
  {
    e in plan.stale || plan.fate.ResponseLost?
  }

  /**
   How `n` attempts at step `e` end, the first being attempt number `a`: whether
   one is answered, and the next number.
   */
  datatype Tries = Tries(answered: bool, next: nat)

  function Try(plans: nat -> Plan, a: nat, e: nat, n: nat): (t: Tries)
    ensures a <= t.next <= a + n && (t.answered ==> a < t.next) && (!t.answered ==> t.next == a + n)
    decreases n
  {
    if n == 0 then Tries(false, a)
    else if Delivers(plans(a), e) then Tries(true, a + 1)
    else if Loses(plans(a), e) then Tries(false, a + n)
    else Try(plans, a + 1, e, n - 1)
  }

  /** Some attempt is answered, and none before it lost the advance. */
  ghost predicate SomeAnswered(plans: nat -> Plan, a: nat, e: nat, n: nat)
  {
    exists k | a <= k < a + n :: Delivers(plans(k), e) && forall i | a <= i < k :: !Loses(plans(i), e)
  }

  /** Three attempts are answered exactly when one of them is, with no advance lost before it. */
  lemma {:induction false} TryIff(plans: nat -> Plan, a: nat, e: nat, n: nat)
    ensures Try(plans, a, e, n).answered <==> SomeAnswered(plans, a, e, n)
    decreases n
  {
    if n > 0 {
      TryIff(plans, a + 1, e, n - 1);
      if Delivers(plans(a), e) {
        assert SomeAnswered(plans, a, e, n);
      } else if SomeAnswered(plans, a + 1, e, n - 1) && !Loses(plans(a), e) {
        var k :| a + 1 <= k < a + n && Delivers(plans(k), e) && forall i | a + 1 <= i < k :: !Loses(plans(i), e);
        assert forall i | a <= i < k :: !Loses(plans(i), e);
      }
    }
  }

  /** The session as the network and the server see it together. */
  class Link {
    const walk: Walk
    const plans: nat -> Plan
    var cursor: nat          // the server's cursor
    var sent: set<nat>       // `expected_step` of every request ever sent; any may arrive again at any time
    var attempts: nat
    ghost var lost: bool     // some advance happened whose response the client never saw

    constructor (walk: Walk, plans: nat -> Plan, start: nat)
      ensures this.walk == walk && this.plans == plans && cursor == start
      ensures sent == {} && attempts == 0 && !lost
    {
      this.walk, this.plans := walk, plans;
      cursor, sent, attempts, lost := start, {}, 0, false;
    }

    /** The server advances on a matching precondition and answers 412 otherwise. */
    method Handle(expected: nat) returns (r: Reply)
      modifies this`cursor
      ensures if expected == old(cursor) then r == walk.ReplyAt(expected) && cursor == expected + 1
              else r == Refused && cursor == old(cursor)
    {
      if expected == cursor {
        cursor := cursor + 1;
        r := walk.ReplyAt(expected);
      } else {
        r := Refused;
      }
    }

    /** The client at step `e`: nothing newer was ever asked for, and an advance past `e` was lost. */
    ghost predicate At(e: nat)
      reads this
    {
      && (forall s | s in sent :: s <= e)
      && ((cursor == e && !lost) || (cursor == e + 1 && lost))
    }

    /** One HTTP attempt of the advance expecting `e`. */
    method Attempt(e: nat) returns (r: Result<Reply, Error>)
      requires At(e)
      modifies this
      ensures attempts == old(attempts) + 1
      ensures r.Ok? ==> r == Ok(walk.ReplyAt(e)) && cursor == e + 1 && !lost && forall s | s in sent :: s <= e
      ensures r.Err? ==> r == Err(Session) && At(e)
      ensures r.Ok? <==> !old(lost) && Delivers(plans(old(attempts)), e)
      ensures lost <==> old(lost) || Loses(plans(old(attempts)), e)
    {
      var plan := plans(attempts);
      attempts := attempts + 1;
      sent := sent + {e};
      var i := 0;
      while i < |plan.stale|
        invariant 0 <= i <= |plan.stale|
        invariant At(e) && e in sent && attempts == old(attempts) + 1
        invariant lost <==> old(lost) || e in plan.stale[..i]
      {
        if plan.stale[i] in sent {
          var reply := Handle(plan.stale[i]);
          lost := lost || reply.Served?;
        }
        i := i + 1;
      }
      match plan.fate
      case NeverArrives | ServerError =>
        r := Err(Session);
      case ResponseLost =>
        var reply := Handle(e);
        lost := lost || reply.Served?;
        r := Err(Session);
      case Answered =>
        var reply := Handle(e);
        r := if reply.Served? then Ok(reply) else Err(Session);
    }

    /** `with_retry` around the advance: at most three attempts, the last error kept. */
    method Advance(e: nat) returns (r: Result<Reply, Error>)
      requires cursor == e && !lost && forall s | s in sent :: s <= e
      modifies this
      ensures var t := Try(plans, old(attempts), e, ATTEMPTS); attempts == t.next && (r.Ok? <==> t.answered)
      ensures r.Ok? ==> r == Ok(walk.ReplyAt(e)) && cursor == e + 1 && !lost && forall s | s in sent :: s <= e
      ensures r.Err? ==> r == Err(Session) && At(e)
      ensures lost ==> r.Err?
    {
      r := Err(Session);
      var attempt := 0;
      while attempt < ATTEMPTS
        invariant 0 <= attempt <= ATTEMPTS && attempts == old(attempts) + attempt
        invariant At(e) && r == Err(Session)
        invariant lost ==> Try(plans, old(attempts), e, ATTEMPTS) == Tries(false, old(attempts) + ATTEMPTS)
        invariant !lost ==> Try(plans, old(attempts), e, ATTEMPTS) == Try(plans, attempts, e, ATTEMPTS - attempt)
      {
        r := Attempt(e);
        if r.Ok? {
          return;
        }
        attempt := attempt + 1;
      }
    }
  }

  // ---- What a drain should return -----------------------------------------

  /** Convert and push one served chain. */
  function Absorb(tape: seq<ChainSnapshot>, chain: Chain, anchor: Option<i64>, ins: Instrument, lim: Limits)
    : Result<seq<ChainSnapshot>, Error>
  {
    var quoteCount := |chain.contracts| * 2;
    if !FitsU64(quoteCount) then Err(ArithmeticOverflow)
    else if quoteCount > lim.maxContractsPerSnapshot then Err(TapeTooLarge(MaxContractsPerSnapshot))
    else if !FitsU32(|tape|) then Err(ArithmeticOverflow)
    else
      var first :- if anchor.Some? then Ok(anchor.value) else Require(chain.ts);
      var s :- ChainToSnapshot(chain, |tape|, ins, first);
      if tape != [] && s.ts <= tape[|tape| - 1].ts then Err(DataOutOfOrder)
      else Push(tape, s, lim)
  }

  function AnchorAfter(anchor: Option<i64>, chain: Chain): Option<i64>
  {
    if anchor.Some? then anchor else chain.ts
  }

  /** The drain of a perfect network: every step from `c` to the server's end, each once. */
  function Ideal(walk: Walk, tape: seq<ChainSnapshot>, anchor: Option<i64>, c: nat, ins: Instrument, lim: Limits)
    : Result<seq<ChainSnapshot>, Error>
    requires |tape| <= lim.maxSteps
    decreases lim.maxSteps - |tape|
  {
    var next :- Absorb(tape, walk.chain(c), anchor, ins, lim);
    if walk.EndsAt(c + 1) then Ok(next)
    else Ideal(walk, next, AnchorAfter(anchor, walk.chain(c)), c + 1, ins, lim)
  }

  function IdealDrain(walk: Walk, ended: bool, start: nat, ins: Instrument, lim: Limits)
    : Result<seq<ChainSnapshot>, Error>
  {
    if ended then Ok([]) else Ideal(walk, [], None, start, ins, lim)
  }

  /** The drain over a given network: the first step none of whose attempts is answered ends it with an error. */
  function NetworkDrain(walk: Walk, plans: nat -> Plan, a: nat, tape: seq<ChainSnapshot>, anchor: Option<i64>, c: nat,
                        ins: Instrument, lim: Limits): Result<seq<ChainSnapshot>, Error>
    requires |tape| <= lim.maxSteps
    decreases lim.maxSteps - |tape|
  {
    var t := Try(plans, a, c, ATTEMPTS);
    if !t.answered then Err(Session)
    else
      var next :- Absorb(tape, walk.chain(c), anchor, ins, lim);
      if walk.EndsAt(c + 1) then Ok(next)
      else NetworkDrain(walk, plans, t.next, next, AnchorAfter(anchor, walk.chain(c)), c + 1, ins, lim)
  }

  function DrainOver(walk: Walk, plans: nat -> Plan, a: nat, ended: bool, start: nat, ins: Instrument, lim: Limits)
    : Result<seq<ChainSnapshot>, Error>
  {
    if ended then Ok([]) else NetworkDrain(walk, plans, a, [], None, start, ins, lim)
  }

  /** Every step the walk asks for is answered within its attempts. */
  predicate Reachable(walk: Walk, plans: nat -> Plan, a: nat, tape: seq<ChainSnapshot>, anchor: Option<i64>, c: nat,
                      ins: Instrument, lim: Limits)
    requires |tape| <= lim.maxSteps
    decreases lim.maxSteps - |tape|
  {
    var t := Try(plans, a, c, ATTEMPTS);
    && t.answered
    && var absorbed := Absorb(tape, walk.chain(c), anchor, ins, lim);
       (absorbed.Ok? && !walk.EndsAt(c + 1) ==>
        Reachable(walk, plans, t.next, absorbed.value, AnchorAfter(anchor, walk.chain(c)), c + 1, ins, lim))
  }

  /** The number of the first attempt at the `i`-th step from `c`, the steps before it having taken theirs. */
  function AttemptNo(plans: nat -> Plan, a: nat, c: nat, i: nat): nat
    decreases i
  {
    if i == 0 then a else AttemptNo(plans, Try(plans, a, c, ATTEMPTS).next, c + 1, i - 1)
  }

  ghost predicate StepAnswered(plans: nat -> Plan, a: nat, c: nat, i: nat)
  {
    SomeAnswered(plans, AttemptNo(plans, a, c, i), c + i, ATTEMPTS)
  }

  ghost predicate EveryStepAnswered(plans: nat -> Plan, a: nat, c: nat, n: nat)
  {
    forall i | 0 <= i < n :: StepAnswered(plans, a, c, i)
  }

  /** Where the walk converts, the network serves it exactly when each of its steps is answered in time. */
  lemma {:induction false} ReachableIff(walk: Walk, plans: nat -> Plan, a: nat, tape: seq<ChainSnapshot>,
                                        anchor: Option<i64>, c: nat, ins: Instrument, lim: Limits)
    requires |tape| <= lim.maxSteps && Ideal(walk, tape, anchor, c, ins, lim).Ok?
    ensures |Ideal(walk, tape, anchor, c, ins, lim).value| > |tape|
    ensures Reachable(walk, plans, a, tape, anchor, c, ins, lim) <==>
            EveryStepAnswered(plans, a, c, |Ideal(walk, tape, anchor, c, ins, lim).value| - |tape|)
    decreases lim.maxSteps - |tape|
  {
    hide Absorb, Try, SomeAnswered, StepAnswered;
    var n := |Ideal(walk, tape, anchor, c, ins, lim).value| - |tape|;
    var next := Absorb(tape, walk.chain(c), anchor, ins, lim).value;
    var a' := Try(plans, a, c, ATTEMPTS).next;
    TryIff(plans, a, c, ATTEMPTS);
    AbsorbAppends(tape, walk.chain(c), anchor, ins, lim);
    StepShift(plans, a, c, 0);
    if !walk.EndsAt(c + 1) {
      ReachableIff(walk, plans, a', next, AnchorAfter(anchor, walk.chain(c)), c + 1, ins, lim);
      StepsShift(plans, a, c, n);
    }
  }

  lemma StepsShift(plans: nat -> Plan, a: nat, c: nat, n: nat)
    requires n > 0
    ensures EveryStepAnswered(plans, a, c, n) <==>
            SomeAnswered(plans, a, c, ATTEMPTS) &&
                EveryStepAnswered(plans, Try(plans, a, c, ATTEMPTS).next, c + 1, n - 1)
  {
    hide StepAnswered;
    var a', c' := Try(plans, a, c, ATTEMPTS).next, c + 1;
    assert StepAnswered(plans, a, c, 0) <==> SomeAnswered(plans, a, c, ATTEMPTS) by { StepShift(plans, a, c, 0); }
    forall i | 0 < i < n ensures StepAnswered(plans, a, c, i) <==> StepAnswered(plans, a', c', i - 1) {
      StepShift(plans, a, c, i - 1);
    }
    if EveryStepAnswered(plans, a, c, n) {
      forall i | 0 <= i < n - 1 ensures StepAnswered(plans, a', c', i) {
        assert StepAnswered(plans, a, c, i + 1);
      }
    }
  }

  lemma StepShift(plans: nat -> Plan, a: nat, c: nat, i: nat)
    ensures StepAnswered(plans, a, c, 0) <==> SomeAnswered(plans, a, c, ATTEMPTS)
    ensures StepAnswered(plans, a, c, i + 1) <==> StepAnswered(plans, Try(plans, a, c, ATTEMPTS).next, c + 1, i)
  {
    hide SomeAnswered, Try;
    assert c + 1 + i == c + (i + 1);
  }

  /** The network decides only between the ideal result and a session error. */
  lemma {:induction false} NetworkDrainIsIdeal(walk: Walk, plans: nat -> Plan, a: nat, tape: seq<ChainSnapshot>,
                                               anchor: Option<i64>, c: nat, ins: Instrument, lim: Limits)
    requires |tape| <= lim.maxSteps
    ensures NetworkDrain(walk, plans, a, tape, anchor, c, ins, lim) ==
            if Reachable(walk, plans, a, tape, anchor, c, ins, lim) then Ideal(walk, tape, anchor, c, ins, lim)
            else Err(Session)
    decreases lim.maxSteps - |tape|
  {
    hide Absorb, Try;
    var t := Try(plans, a, c, ATTEMPTS);
    var absorbed := Absorb(tape, walk.chain(c), anchor, ins, lim);
    if t.answered && absorbed.Ok? && !walk.EndsAt(c + 1) {
      AbsorbAppends(tape, walk.chain(c), anchor, ins, lim);
      NetworkDrainIsIdeal(walk, plans, t.next, absorbed.value, AnchorAfter(anchor, walk.chain(c)), c + 1, ins, lim);
    }
  }

  /** One turn of the loop after a response: ceilings, anchor, conversion, time order, push. */
  method AbsorbInto(builder: TapeBuilder, chain: Chain, anchor: Option<i64>, ins: Instrument)
    returns (r: Result<(), Error>)
    requires builder.Valid()
    modifies builder
    ensures builder.Valid()
    ensures match Absorb(old(builder.tape), chain, anchor, ins, builder.lim)
            case Ok(tape) => r == Ok(()) && builder.tape == tape && |tape| == |old(builder.tape)| + 1
            case Err(e) => r == Err(e)
  {
    hide ChainToSnapshot, TotalBytes;
    var quoteCount := |chain.contracts| * 2;
    if !FitsU64(quoteCount) {
      return Err(ArithmeticOverflow);
    }
    if quoteCount > builder.lim.maxContractsPerSnapshot {
      return Err(TapeTooLarge(MaxContractsPerSnapshot));
    }
    if !FitsU32(|builder.tape|) {
      return Err(ArithmeticOverflow);
    }
    var first := if anchor.Some? then Ok(anchor.value) else Require(chain.ts);
    if first.Err? {
      return Err(first.error);
    }
    var s := ChainToSnapshot(chain, |builder.tape|, ins, first.value);
    if s.Err? {
      return Err(s.error);
    }
    if builder.tape != [] && s.value.ts <= builder.tape[|builder.tape| - 1].ts {
      return Err(DataOutOfOrder);
    }
    r := builder.PushChecked(s.value);
  }

  /**
   `drain`: what the network did settles the result; an advance whose response
   was lost always ends in a session error; and the number of attempts is
   bounded even if the server never reports an end.
   */
  method Drain(link: Link, ended: bool, ins: Instrument, lim: Limits)
    returns (r: Result<seq<ChainSnapshot>, Error>)
    requires link.sent == {} && !link.lost
    modifies link
    ensures r == DrainOver(link.walk, link.plans, old(link.attempts), ended, old(link.cursor), ins, lim)
    ensures link.lost ==> r == Err(Session)
    ensures r.Ok? ==> link.cursor == old(link.cursor) + |r.value|
    ensures link.attempts <= old(link.attempts) + ATTEMPTS * (lim.maxSteps + 1)
    ensures r.Ok? ==> WithinBudget(r.value, lim)
  {
    hide Absorb, TotalBytes, Try, AnchorAfter;
    var builder := new TapeBuilder(lim);
    var anchor: Option<i64> := None;
    var done := ended;
    var expected := link.cursor;
    ghost var all := DrainOver(link.walk, link.plans, link.attempts, ended, link.cursor, ins, lim);
    while !done
      invariant fresh(builder) && builder.Valid() && builder.lim == lim
      invariant link.cursor == expected == old(link.cursor) + |builder.tape|
      invariant !link.lost && forall s | s in link.sent :: s <= expected
      invariant link.attempts <= old(link.attempts) + ATTEMPTS * |builder.tape|
      invariant all == if done then Ok(builder.tape)
                       else NetworkDrain(link.walk, link.plans, link.attempts, builder.tape, anchor, expected, ins, lim)
      decreases lim.maxSteps - |builder.tape|, !done
    {
      var answer := link.Advance(expected);
      if answer.Err? {
        return Err(Session);
      }
      var chain := answer.value.chain;
      var absorbed := AbsorbInto(builder, chain, anchor, ins);
      if absorbed.Err? {
        return Err(absorbed.error);
      }
      anchor := AnchorAfter(anchor, chain);
      done := answer.value.currentStep >= answer.value.totalSteps;
      expected := answer.value.currentStep;
    }
    return Ok(builder.tape);
  }

  /** The converted form of the `i`-th snapshot served from `start`. */
  function ServedSnapshot(walk: Walk, start: nat, i: u32, anchor: i64, ins: Instrument): Result<ChainSnapshot, Error>
  {
    ChainToSnapshot(walk.chain(start + i), i, ins, anchor)
  }

  /** A tape holding exactly the server's snapshots `start .. start + |tape|`, in order and each once. */
  ghost predicate Consecutive(walk: Walk, start: nat, tape: seq<ChainSnapshot>, ins: Instrument)
  {
    && (tape != [] ==> walk.chain(start).ts.Some?)
    && forall i | 0 <= i < |tape| ::
         FitsU32(i) && ServedSnapshot(walk, start, i, walk.chain(start).ts.value, ins) == Ok(tape[i])
  }

  /** Every snapshot within the contract ceiling. */
  ghost predicate Capped(tape: seq<ChainSnapshot>, lim: Limits)
  {
    forall i | 0 <= i < |tape| :: |tape[i].quotes| <= lim.maxContractsPerSnapshot
  }

  // ---- What a served chain becomes ----------------------------------------

  /** The entry quotes one side of a contract row, field by field. */
  predicate Serves(e: Entry, chain: Chain, c: ContractResponse, style: Style, ins: Instrument)
    requires ins.tick > 0
  {
    var side := if style.Call? then c.call else c.put;
    && e.key.underlying == chain.underlying && c.expiration.Some? && e.key.expiration == DateTime(c.expiration.value)
    && c.strike == Ok(e.key.strike) && e.key.style == style && e.view.contract == e.key
    && side.bid == Some(Ok(e.view.bid)) && side.ask == Some(Ok(e.view.ask)) && WellPriced(e, ins.tick)
    && e.view.bidSize == e.view.askSize == ins.quoteSize
    && c.iv == Some(Finite(e.view.iv)) && GreekIs(side.delta, e.view.delta) && GreekIs(c.gamma, e.view.gamma)
    && e.view.theta == e.view.vega == Decimal(0, 0, 0, 0)
  }

  ghost predicate SomeEntry(s: ChainSnapshot, chain: Chain, c: ContractResponse, style: Style, ins: Instrument)
    requires ins.tick > 0
  {
    exists i :: 0 <= i < |s.quotes| && Serves(s.quotes[i], chain, c, style, ins)
  }

  ghost predicate SomeSide(e: Entry, chain: Chain, ins: Instrument)
    requires ins.tick > 0
  {
    exists c, style :: 0 <= c < |chain.contracts| && Serves(e, chain, chain.contracts[c], style, ins)
  }

  /** Every side of every row has its entry, and every entry its side. */
  ghost predicate RowsKept(chain: Chain, ins: Instrument, s: ChainSnapshot)
    requires ins.tick > 0
  {
    && (forall c, style | 0 <= c < |chain.contracts| :: SomeEntry(s, chain, chain.contracts[c], style, ins))
    && (forall i | 0 <= i < |s.quotes| :: SomeSide(s.quotes[i], chain, ins))
  }

  /** Two rows that name one strike and one expiration. */
  predicate SameRow(a: ContractResponse, b: ContractResponse)
  {
    a.strike == b.strike && a.expiration == b.expiration
  }

  /**
   The snapshot is the served chain: its header, a call and a put entry for every
   contract row and nothing else, no two rows naming one contract.
   */
  ghost predicate Renders(chain: Chain, step: u32, ins: Instrument, s: ChainSnapshot)
  {
    && ValidTicker(chain.underlying) && s.underlying == chain.underlying
    && chain.ts == Some(s.ts) && s.step == step && chain.price == Ok(s.underlyingPrice)
    && s.tick == ins.tick > 0 && s.multiplier == ins.multiplier > 0
    && StrictlySortedBy(s.quotes, EntryKey) && RowsKept(chain, ins, s)
    && (forall c, d | 0 <= c < d < |chain.contracts| :: !SameRow(chain.contracts[c], chain.contracts[d]))
  }

  /** The quote holds the cells of one side of a contract row. */
  predicate Sided(raw: RawQuote, c: ContractResponse, style: Style, size: u32)
  {
    var side := if style.Call? then c.call else c.put;
    && c.strike == Ok(raw.strike) && raw.style == style
    && c.expiration.Some? && raw.expiration == DateTime(c.expiration.value)
    && side.bid == Some(Ok(raw.bid)) && side.ask == Some(Ok(raw.ask)) && raw.bidSize == raw.askSize == size
    && c.iv == Some(raw.iv) && raw.delta == (if side.delta.Some? then side.delta.value else NO_GREEK)
    && raw.gamma == (if c.gamma.Some? then c.gamma.value else NO_GREEK) && raw.theta == raw.vega == NO_GREEK
  }

  predicate SideReads(side: SideResponse)
  {
    side.bid.Some? && side.bid.value.Ok? && side.ask.Some? && side.ask.value.Ok?
  }

  predicate RowReads(c: ContractResponse)
  {
    c.strike.Ok? && c.expiration.Some? && c.iv.Some? && SideReads(c.call) && SideReads(c.put)
  }

  function StyleOf(k: nat): Style { if k % 2 == 0 then Call else Put }

  /** The quotes of the rows: two a row, each holding the cells of its side. */
  lemma {:induction false} RowsRead(contracts: seq<ContractResponse>, size: u32)
    ensures RawQuotes(contracts, size).Ok? <==> forall c | 0 <= c < |contracts| :: RowReads(contracts[c])
    ensures RawQuotes(contracts, size).Ok? ==>
            var quotes := RawQuotes(contracts, size).value;
            && |quotes| == 2 * |contracts|
            && forall k | 0 <= k < |quotes| :: Sided(quotes[k], contracts[k / 2], StyleOf(k), size)
  {
    if contracts != [] {
      RowsRead(contracts[1..], size);
      assert forall c | 1 <= c < |contracts| :: contracts[c] == contracts[1..][c - 1];
      assert forall c | 0 <= c < |contracts[1..]| :: contracts[1..][c] == contracts[c + 1];
      if RawQuotes(contracts, size).Ok? {
        var quotes, rest := RawQuotes(contracts, size).value, RawQuotes(contracts[1..], size).value;
        forall k | 0 <= k < |quotes| ensures Sided(quotes[k], contracts[k / 2], StyleOf(k), size) {
          if k >= 2 {
            assert quotes[k] == rest[k - 2] && contracts[1..][(k - 2) / 2] == contracts[k / 2];
          }
        }
      }
    }
  }

  /** A quote with the cells of a side becomes the entry that serves it. */
  lemma SidedServes(chain: Chain, c: ContractResponse, style: Style, ins: Instrument, meta: SnapshotMeta,
                    raw: RawQuote, e: Entry)
    requires Sided(raw, c, style, ins.quoteSize)
    requires meta.tick == ins.tick > 0 && meta.underlying == chain.underlying
    ensures Becomes(meta, raw, e) <==> Serves(e, chain, c, style, ins)
  {
    hide WellPriced;
  }

  lemma ServedReads(e: Entry, f: Entry, chain: Chain, c: ContractResponse, ins: Instrument)
    requires ins.tick > 0 && Serves(e, chain, c, Call, ins) && Serves(f, chain, c, Put, ins)
    ensures RowReads(c)
  {
    hide WellPriced;
  }

  /** A call and a put for every contract row, none merged. */
  lemma ChainKeepsQuotes(chain: Chain, step: u32, ins: Instrument, anchor: i64)
    requires ChainToSnapshot(chain, step, ins, anchor).Ok?
    ensures |ChainToSnapshot(chain, step, ins, anchor).value.quotes| == |chain.contracts| * 2
  {
    hide RawQuotes, Snapshot;
    var quotes := RawQuotes(chain.contracts, ins.quoteSize).value;
    RowsRead(chain.contracts, ins.quoteSize);
    var meta := SnapshotMeta(chain.ts.value, step, anchor, NewUnderlying(chain.underlying).value, chain.price.value,
                             ins.tick, ins.multiplier);
    QuoteOrderIrrelevant(meta, quotes, quotes);
  }

  function MetaOf(chain: Chain, step: u32, ins: Instrument, anchor: i64): SnapshotMeta
    requires chain.ts.Some? && chain.price.Ok?
  {
    SnapshotMeta(chain.ts.value, step, anchor, chain.underlying, chain.price.value, ins.tick, ins.multiplier)
  }

  lemma QuoteServes(chain: Chain, ins: Instrument, meta: SnapshotMeta, quotes: seq<RawQuote>, k: nat, e: Entry)
    requires RawQuotes(chain.contracts, ins.quoteSize) == Ok(quotes) && k < |quotes|
    requires meta.tick == ins.tick > 0 && meta.underlying == chain.underlying
    ensures k / 2 < |chain.contracts|
    ensures Becomes(meta, quotes[k], e) <==> Serves(e, chain, chain.contracts[k / 2], StyleOf(k), ins)
  {
    hide RawQuotes, Becomes, Serves, Sided;
    RowsRead(chain.contracts, ins.quoteSize);
    SidedServes(chain, chain.contracts[k / 2], StyleOf(k), ins, meta, quotes[k], e);
  }

  lemma CorrespondsKept(chain: Chain, ins: Instrument, meta: SnapshotMeta, quotes: seq<RawQuote>, s: ChainSnapshot)
    requires RawQuotes(chain.contracts, ins.quoteSize) == Ok(quotes)
    requires meta.tick == ins.tick > 0 && meta.underlying == chain.underlying && Correspond(meta, quotes, s.quotes)
    ensures RowsKept(chain, ins, s)
  {
    hide RawQuotes, Becomes, Serves, Correspond;
    RowsRead(chain.contracts, ins.quoteSize);
    forall c, style | 0 <= c < |chain.contracts| ensures SomeEntry(s, chain, chain.contracts[c], style, ins) {
      var k := 2 * c + if style.Call? then 0 else 1;
      assert k / 2 == c && StyleOf(k) == style;
      var i := PlaceOf(meta, quotes, s.quotes, k);
      QuoteServes(chain, ins, meta, quotes, k, s.quotes[i]);
    }
    forall i | 0 <= i < |s.quotes| ensures SomeSide(s.quotes[i], chain, ins) {
      var k := QuoteOf(meta, quotes, s.quotes, i);
      QuoteServes(chain, ins, meta, quotes, k, s.quotes[i]);
    }
  }

  lemma KeptCorresponds(chain: Chain, ins: Instrument, meta: SnapshotMeta, quotes: seq<RawQuote>, s: ChainSnapshot)
    requires RawQuotes(chain.contracts, ins.quoteSize) == Ok(quotes)
    requires meta.tick == ins.tick > 0 && meta.underlying == chain.underlying && RowsKept(chain, ins, s)
    ensures Correspond(meta, quotes, s.quotes)
  {
    hide RawQuotes, Becomes, Serves;
    RowsRead(chain.contracts, ins.quoteSize);
    forall k | 0 <= k < |quotes| ensures HasEntry(meta, quotes[k], s.quotes) {
      assert SomeEntry(s, chain, chain.contracts[k / 2], StyleOf(k), ins);
      var i :| 0 <= i < |s.quotes| && Serves(s.quotes[i], chain, chain.contracts[k / 2], StyleOf(k), ins);
      QuoteServes(chain, ins, meta, quotes, k, s.quotes[i]);
    }
    forall i | 0 <= i < |s.quotes| ensures HasQuote(meta, quotes, s.quotes[i]) {
      var k := SideOf(chain, ins, s, i);
      QuoteServes(chain, ins, meta, quotes, k, s.quotes[i]);
      assert Becomes(meta, quotes[k], s.quotes[i]);
    }
  }

  lemma SideOf(chain: Chain, ins: Instrument, s: ChainSnapshot, i: nat) returns (k: nat)
    requires ins.tick > 0 && RowsKept(chain, ins, s) && i < |s.quotes|
    ensures k < 2 * |chain.contracts| && Serves(s.quotes[i], chain, chain.contracts[k / 2], StyleOf(k), ins)
  {
    hide Serves;
    assert SomeSide(s.quotes[i], chain, ins);
    var c, style :| 0 <= c < |chain.contracts| && Serves(s.quotes[i], chain, chain.contracts[c], style, ins);
    k := 2 * c + if style.Call? then 0 else 1;
    assert k / 2 == c && StyleOf(k) == style;
  }

  /** No two rows name one contract exactly when no two of their quotes do. */
  lemma RowsDistinct(chain: Chain, ins: Instrument, meta: SnapshotMeta, quotes: seq<RawQuote>, s: ChainSnapshot)
    requires RawQuotes(chain.contracts, ins.quoteSize) == Ok(quotes)
    requires meta.tick == ins.tick > 0 && meta.underlying == chain.underlying && Correspond(meta, quotes, s.quotes)
    ensures OneQuoteEach(meta, quotes) <==>
            forall c, d | 0 <= c < d < |chain.contracts| :: !SameRow(chain.contracts[c], chain.contracts[d])
  {
    hide RawQuotes, Becomes, Sided, Correspond;
    RowsRead(chain.contracts, ins.quoteSize);
    forall k, l, a, b | 0 <= k < l < |quotes| && Becomes(meta, quotes[k], a) && Becomes(meta, quotes[l], b)
      ensures a.key == b.key <==> k / 2 != l / 2 && StyleOf(k) == StyleOf(l) &&
                                  SameRow(chain.contracts[k / 2], chain.contracts[l / 2])
    {
      KeysOfRows(chain, ins, meta, quotes, k, l, a, b);
    }
    if OneQuoteEach(meta, quotes) {
      forall c, d | 0 <= c < d < |chain.contracts| ensures !SameRow(chain.contracts[c], chain.contracts[d]) {
        var i := PlaceOf(meta, quotes, s.quotes, 2 * c);
        var j := PlaceOf(meta, quotes, s.quotes, 2 * d);
        assert s.quotes[i].key != s.quotes[j].key;
        assert 2 * c / 2 == c && 2 * d / 2 == d && StyleOf(2 * c) == StyleOf(2 * d);
      }
    }
  }

  lemma KeysOfRows(chain: Chain, ins: Instrument, meta: SnapshotMeta, quotes: seq<RawQuote>, k: nat, l: nat,
                   a: Entry, b: Entry)
    requires |quotes| == 2 * |chain.contracts| && meta.tick > 0 && k < l < |quotes|
    requires Sided(quotes[k], chain.contracts[k / 2], StyleOf(k), ins.quoteSize)
    requires Sided(quotes[l], chain.contracts[l / 2], StyleOf(l), ins.quoteSize)
    requires Becomes(meta, quotes[k], a) && Becomes(meta, quotes[l], b)
    ensures a.key == b.key <==> k / 2 != l / 2 && StyleOf(k) == StyleOf(l) &&
                                SameRow(chain.contracts[k / 2], chain.contracts[l / 2])
  {
    hide WellPriced;
    assert k / 2 == l / 2 ==> StyleOf(k) != StyleOf(l);
  }

  /** Conversion of a served chain, both ways: it converts exactly when some snapshot renders it, and to that one. */
  lemma ChainIff(chain: Chain, step: u32, ins: Instrument, anchor: i64, s: ChainSnapshot)
    ensures ChainToSnapshot(chain, step, ins, anchor) == Ok(s) <==> Renders(chain, step, ins, s)
  {
    hide RawQuotes, Snapshot, Correspond, OneQuoteEach, SomeEntry, SomeSide, SameRow, RowReads;
    if chain.ts.Some? && chain.price.Ok? && ValidTicker(chain.underlying) && ins.tick > 0 {
      RowsRead(chain.contracts, ins.quoteSize);
      var meta := MetaOf(chain, step, ins, anchor);
      match RawQuotes(chain.contracts, ins.quoteSize) {
        case Ok(quotes) =>
          SnapshotIff(meta, quotes, s);
          if Correspond(meta, quotes, s.quotes) {
            CorrespondsKept(chain, ins, meta, quotes, s);
            RowsDistinct(chain, ins, meta, quotes, s);
          } else if RowsKept(chain, ins, s) {
            KeptCorresponds(chain, ins, meta, quotes, s);
          }
        case Err(_) =>
          var c :| 0 <= c < |chain.contracts| && !RowReads(chain.contracts[c]);
          if SomeEntry(s, chain, chain.contracts[c], Call, ins) && SomeEntry(s, chain, chain.contracts[c], Put, ins) {
            RenderedReads(s, chain, chain.contracts[c], ins);
          }
      }
    } else {
      NoSnapshot(chain, step, ins, anchor);
    }
  }

  lemma RenderedReads(s: ChainSnapshot, chain: Chain, c: ContractResponse, ins: Instrument)
    requires ins.tick > 0 && SomeEntry(s, chain, c, Call, ins) && SomeEntry(s, chain, c, Put, ins)
    ensures RowReads(c)
  {
    hide Serves;
    var i :| 0 <= i < |s.quotes| && Serves(s.quotes[i], chain, c, Call, ins);
    var j :| 0 <= j < |s.quotes| && Serves(s.quotes[j], chain, c, Put, ins);
    ServedReads(s.quotes[i], s.quotes[j], chain, c, ins);
  }

  lemma NoSnapshot(chain: Chain, step: u32, ins: Instrument, anchor: i64)
    requires chain.ts.None? || chain.price.Err? || !ValidTicker(chain.underlying) || ins.tick == 0
    ensures ChainToSnapshot(chain, step, ins, anchor).Err?
  {
    hide AddQuotes, RawQuotes;
  }

  ghost predicate Increasing(tape: seq<ChainSnapshot>)
  {
    forall i, j | 0 <= i < j < |tape| :: tape[i].ts < tape[j].ts
  }

  /** One absorbed chain more, still consecutive and increasing. */
  lemma AbsorbKeeps(walk: Walk, start: nat, tape: seq<ChainSnapshot>, anchor: Option<i64>, ins: Instrument, lim: Limits)
    requires anchor == if tape == [] then None else walk.chain(start).ts
    requires Consecutive(walk, start, tape, ins) && Increasing(tape) && Capped(tape, lim)
    requires Absorb(tape, walk.chain(start + |tape|), anchor, ins, lim).Ok?
    ensures var chain := walk.chain(start + |tape|);
            var next := Absorb(tape, chain, anchor, ins, lim).value;
            && |next| == |tape| + 1 <= lim.maxSteps && AnchorAfter(anchor, chain) == walk.chain(start).ts
            && Consecutive(walk, start, next, ins) && Increasing(next) && Capped(next, lim)
  {
    hide ChainToSnapshot, Absorb;
    var c := start + |tape|;
    var next := Absorb(tape, walk.chain(c), anchor, ins, lim).value;
    AbsorbAppends(tape, walk.chain(c), anchor, ins, lim);
    if tape != [] { assert tape[|tape| - 1].ts < next[|tape|].ts; }
    assert next[|tape|] == next[|next| - 1];
    ChainKeepsQuotes(walk.chain(c), |tape|, ins, AnchorAfter(anchor, walk.chain(c)).value);
  }

  lemma {:induction false} IdealIsConsecutive(walk: Walk, start: nat, tape: seq<ChainSnapshot>, anchor: Option<i64>,
                                              ins: Instrument, lim: Limits)
    requires |tape| <= lim.maxSteps
    requires anchor == if tape == [] then None else walk.chain(start).ts
    requires Consecutive(walk, start, tape, ins) && Increasing(tape) && Capped(tape, lim)
    requires Ideal(walk, tape, anchor, start + |tape|, ins, lim).Ok?
    ensures var r := Ideal(walk, tape, anchor, start + |tape|, ins, lim).value;
            && |r| > |tape| && Consecutive(walk, start, r, ins) && Increasing(r) && Capped(r, lim)
            && walk.EndsAt(start + |r|) && (forall c | start + |tape| < c < start + |r| :: !walk.EndsAt(c))
    decreases lim.maxSteps - |tape|
  {
    hide Absorb, Consecutive, Increasing, Capped, AnchorAfter;
    var c := start + |tape|;
    var next := Absorb(tape, walk.chain(c), anchor, ins, lim).value;
    AbsorbKeeps(walk, start, tape, anchor, ins, lim);
    if !walk.EndsAt(c + 1) {
      IdealIsConsecutive(walk, start, next, AnchorAfter(anchor, walk.chain(c)), ins, lim);
    }
  }

  lemma AbsorbAppends(tape: seq<ChainSnapshot>, chain: Chain, anchor: Option<i64>, ins: Instrument, lim: Limits)
    requires Absorb(tape, chain, anchor, ins, lim).Ok?
    ensures var next := Absorb(tape, chain, anchor, ins, lim).value;
            && FitsU32(|tape|) && AnchorAfter(anchor, chain).Some?
            && |chain.contracts| * 2 <= lim.maxContractsPerSnapshot
            && var s := ChainToSnapshot(chain, |tape|, ins, AnchorAfter(anchor, chain).value);
               && s.Ok? && next == tape + [s.value] && |next| <= lim.maxSteps
               && (tape != [] ==> tape[|tape| - 1].ts < s.value.ts)
  {
    hide ChainToSnapshot;
  }

  /**
   A successful drain of a session not already ended is exactly the server's
   consecutive snapshots from its cursor to the first step it reports as the
   end, none skipped and none repeated, in strictly increasing time.
   */
  lemma DrainedTape(walk: Walk, start: nat, ins: Instrument, lim: Limits)
    requires IdealDrain(walk, false, start, ins, lim).Ok?
    ensures var tape := IdealDrain(walk, false, start, ins, lim).value;
            && tape != [] && Consecutive(walk, start, tape, ins)
            && walk.EndsAt(start + |tape|) && (forall c | start < c < start + |tape| :: !walk.EndsAt(c))
            && Increasing(tape) && Capped(tape, lim)
  {
    hide Absorb, Ideal, ServedSnapshot;
    IdealIsConsecutive(walk, start, [], None, ins, lim);
  }

  /** The snapshot is the served chain, and the chain is within the contract cap. */
  ghost predicate RendersWithin(chain: Chain, step: u32, ins: Instrument, lim: Limits, s: ChainSnapshot)
  {
    Renders(chain, step, ins, s) && 2 * |chain.contracts| <= lim.maxContractsPerSnapshot
  }

  /** Step `i` of the tape is the served one, later than the step before, and paid for. */
  ghost predicate StepFits(walk: Walk, start: nat, tape: seq<ChainSnapshot>, i: nat, ins: Instrument, lim: Limits)
    requires i < |tape|
  {
    && FitsU32(i) && RendersWithin(walk.chain(start + i), i, ins, lim, tape[i])
    && (i > 0 ==> tape[i - 1].ts < tape[i].ts) && WithinBudget(tape[..i + 1], lim)
  }

  lemma AbsorbIff(walk: Walk, start: nat, tape: seq<ChainSnapshot>, anchor: Option<i64>, ins: Instrument, lim: Limits,
                  next: seq<ChainSnapshot>)
    ensures Absorb(tape, walk.chain(start + |tape|), anchor, ins, lim) == Ok(next) <==>
            |next| == |tape| + 1 && next[..|tape|] == tape && StepFits(walk, start, next, |tape|, ins, lim)
  {
    hide ChainToSnapshot, Renders, Push, WithinBudget;
    assert 2 * |walk.chain(start + |tape|).contracts| == |walk.chain(start + |tape|).contracts| * 2;
    var chain, n := walk.chain(start + |tape|), |tape|;
    if FitsU32(n) {
      var first := if anchor.Some? then anchor else chain.ts;
      if first.Some? {
        var s := ChainToSnapshot(chain, n, ins, first.value);
        if s.Ok? {
          ChainIff(chain, n, ins, first.value, s.value);
          PushIff(tape, s.value, lim);
          assert tape + [s.value] == (tape + [s.value])[..n + 1];
        }
        if |next| == n + 1 && next[..n] == tape {
          ChainIff(chain, n, ins, first.value, next[n]);
          assert next == tape + [next[n]] == next[..n + 1];
        }
      } else if |next| == n + 1 {
        assert Renders(chain, n, ins, next[n]) ==> chain.ts.Some? by { RendersTs(chain, n, ins, next[n]); }
      }
    }
  }

  lemma RendersTs(chain: Chain, step: u32, ins: Instrument, s: ChainSnapshot)
    ensures Renders(chain, step, ins, s) ==> chain.ts.Some?
  {
  }

  /** From step `n` on every step fits, and the last one is the first the server counts as its last. */
  ghost predicate Completes(walk: Walk, start: nat, n: nat, r: seq<ChainSnapshot>, ins: Instrument, lim: Limits)
  {
    && n < |r| && (forall i | n <= i < |r| :: StepFits(walk, start, r, i, ins, lim))
    && walk.EndsAt(start + |r|) && forall c | start + n < c < start + |r| :: !walk.EndsAt(c)
  }

  lemma CompletesStep(walk: Walk, start: nat, n: nat, r: seq<ChainSnapshot>, ins: Instrument, lim: Limits)
    ensures Completes(walk, start, n, r, ins, lim) <==>
            && n < |r| && StepFits(walk, start, r, n, ins, lim)
            && if walk.EndsAt(start + n + 1) then |r| == n + 1 else Completes(walk, start, n + 1, r, ins, lim)
  {
    hide StepFits;
  }

  lemma {:induction false} IdealIff(walk: Walk, start: nat, tape: seq<ChainSnapshot>, anchor: Option<i64>,
                                    ins: Instrument, lim: Limits, r: seq<ChainSnapshot>)
    requires |tape| <= lim.maxSteps
    ensures Ideal(walk, tape, anchor, start + |tape|, ins, lim) == Ok(r) <==>
            |tape| < |r| && r[..|tape|] == tape && Completes(walk, start, |tape|, r, ins, lim)
    decreases lim.maxSteps - |tape|
  {
    hide Absorb, StepFits, AnchorAfter, Completes;
    var c, n := start + |tape|, |tape|;
    var absorbed := Absorb(tape, walk.chain(c), anchor, ins, lim);
    FirstStepIff(walk, start, tape, anchor, ins, lim, r);
    CompletesStep(walk, start, n, r, ins, lim);
    if absorbed.Ok? {
      AbsorbAppends(tape, walk.chain(c), anchor, ins, lim);
      assert |r| == n + 1 ==> r[..n + 1] == r;
      if !walk.EndsAt(c + 1) {
        CompletesLonger(walk, start, n + 1, r, ins, lim);
        IdealIff(walk, start, absorbed.value, AnchorAfter(anchor, walk.chain(c)), ins, lim, r);
      }
    }
  }

  lemma CompletesLonger(walk: Walk, start: nat, n: nat, r: seq<ChainSnapshot>, ins: Instrument, lim: Limits)
    ensures Completes(walk, start, n, r, ins, lim) ==> n < |r|
  {
  }

  lemma FirstStepIff(walk: Walk, start: nat, tape: seq<ChainSnapshot>, anchor: Option<i64>, ins: Instrument,
                     lim: Limits, r: seq<ChainSnapshot>)
    ensures var absorbed := Absorb(tape, walk.chain(start + |tape|), anchor, ins, lim);
            |tape| < |r| && r[..|tape|] == tape && StepFits(walk, start, r, |tape|, ins, lim) <==>
            absorbed.Ok? && |tape| < |r| && r[..|tape| + 1] == absorbed.value
  {
    hide Absorb, StepFits;
    if |tape| < |r| {
      var first := r[..|tape| + 1];
      assert first[..|tape|] == r[..|tape|];
      AbsorbIff(walk, start, tape, anchor, ins, lim, first);
      StepOfPrefix(walk, start, r, |tape|, ins, lim);
    }
  }

  lemma StepOfPrefix(walk: Walk, start: nat, r: seq<ChainSnapshot>, n: nat, ins: Instrument, lim: Limits)
    requires n < |r|
    ensures StepFits(walk, start, r[..n + 1], n, ins, lim) <==> StepFits(walk, start, r, n, ins, lim)
  {
    hide RendersWithin, WithinBudget;
    assert r[..n + 1][..n + 1] == r[..n + 1];
  }

  /** The tape renders the server's chains one by one, in increasing time and within the budget. */
  ghost predicate RendersWalk(walk: Walk, start: nat, tape: seq<ChainSnapshot>, ins: Instrument, lim: Limits)
  {
    && |tape| <= U32_MAX + 1
    && (forall i | 0 <= i < |tape| :: RendersWithin(walk.chain(start + i), i, ins, lim, tape[i]))
    && (forall i, j | 0 <= i < j < |tape| :: tape[i].ts < tape[j].ts) && WithinBudget(tape, lim)
  }

  /**
   What a drain of a session not already ended is, both ways: it yields `tape`
   exactly when `tape` renders the server's chains one by one from its cursor up
   to the first step the server counts as its last.
   */
  lemma DrainIff(walk: Walk, start: nat, ins: Instrument, lim: Limits, tape: seq<ChainSnapshot>)
    ensures IdealDrain(walk, false, start, ins, lim) == Ok(tape) <==>
            && tape != [] && RendersWalk(walk, start, tape, ins, lim)
            && start + |tape| >= walk.total(start + |tape|)
            && forall c | start < c < start + |tape| :: c < walk.total(c)
  {
    hide Ideal, StepFits, RendersWalk;
    IdealIff(walk, start, [], None, ins, lim, tape);
    assert forall c: nat :: walk.EndsAt(c) <==> c >= walk.total(c);
    if 0 < |tape| {
      if RendersWalk(walk, start, tape, ins, lim) {
        forall i | 0 <= i < |tape| ensures StepFits(walk, start, tape, i, ins, lim) {
          WalkStep(walk, start, tape, i, ins, lim);
        }
      } else if forall i | 0 <= i < |tape| :: StepFits(walk, start, tape, i, ins, lim) {
        StepsWalk(walk, start, tape, ins, lim);
      }
    }
  }

  lemma WalkStep(walk: Walk, start: nat, tape: seq<ChainSnapshot>, i: nat, ins: Instrument, lim: Limits)
    requires RendersWalk(walk, start, tape, ins, lim) && i < |tape|
    ensures StepFits(walk, start, tape, i, ins, lim)
  {
    hide RendersWithin, WithinBudget;
    BudgetOfPrefix(tape, i + 1, lim);
  }

  lemma StepsWalk(walk: Walk, start: nat, tape: seq<ChainSnapshot>, ins: Instrument, lim: Limits)
    requires tape != [] && forall i | 0 <= i < |tape| :: StepFits(walk, start, tape, i, ins, lim)
    ensures RendersWalk(walk, start, tape, ins, lim)
  {
    hide RendersWithin, WithinBudget;
    assert tape[..|tape|] == tape;
    assert StepFits(walk, start, tape, |tape| - 1, ins, lim);
    forall i | 0 <= i < |tape|
      ensures RendersWithin(walk.chain(start + i), i, ins, lim, tape[i]) && (i > 0 ==> tape[i - 1].ts < tape[i].ts)
    {
      assert StepFits(walk, start, tape, i, ins, lim);
    }
    StepsAscend(tape);
  }

  lemma {:induction false} StepsAscend(tape: seq<ChainSnapshot>)
    requires forall i | 0 < i < |tape| :: tape[i - 1].ts < tape[i].ts
    ensures Increasing(tape)
  {
    if tape != [] {
      var init := tape[..|tape| - 1];
      StepsAscend(init);
      forall i, j | 0 <= i < j < |tape| ensures tape[i].ts < tape[j].ts {
        assert i < |init| && (j < |init| ==> init[i].ts < init[j].ts);
        if j == |init| && i < j - 1 {
          assert init[i].ts < init[j - 1].ts;
        }
      }
    }
  }

  // ---- open_async: create, drain, always delete ---------------------------

  datatype SessionState = Initialized | InProgress | Modified | Reinitialized | Completed | Errored | Unknown {
    predicate Terminal() { Completed? || Errored? }
  }

  function FromProgress(current: nat, total: nat): SessionState
  {
    if current >= total then Completed else InProgress
  }

  predicate SessionEnded(state: SessionState, current: nat, total: nat)
  {
    state.Terminal() || FromProgress(current, total).Terminal()
  }

  /** A fresh session as the create response describes it. */
  datatype Created = Created(walk: Walk, state: SessionState, current: nat, total: nat)

  /** What becomes of one create attempt; an `Orphan` exists on the server, unseen by the client. */
  datatype CreateFate = NotCreated | Orphan | Answers(session: Created)

  /** The session of the first create attempt from number `k` that answers. */
  function FirstSession(creates: nat -> CreateFate, k: nat): Option<Created>
    requires k <= ATTEMPTS
    decreases ATTEMPTS - k
  {
    if k == ATTEMPTS then None
    else if creates(k).Answers? then Some(creates(k).session)
    else FirstSession(creates, k + 1)
  }

  /** The sessions that create attempts from number `k` leave behind before one answers. */
  function Orphans(creates: nat -> CreateFate, k: nat): nat
    requires k <= ATTEMPTS
    decreases ATTEMPTS - k
  {
    if k == ATTEMPTS || creates(k).Answers? then 0
    else Orphans(creates, k + 1) + if creates(k).Orphan? then 1 else 0
  }

  /** What opening yields: settled by the creates and the advances, with no delete in sight. */
  function OpenOver(creates: nat -> CreateFate, plans: nat -> Plan, ins: Instrument, lim: Limits)
    : Result<seq<ChainSnapshot>, Error>
  {
    match FirstSession(creates, 0)
    case None => Err(Session)
    case Some(c) =>
      SettleDrain(DrainOver(c.walk, plans, 0, SessionEnded(c.state, c.current, c.total), c.current, ins, lim))
  }

  class Api {
    const creates: nat -> CreateFate
    const deletes: nat -> bool
    const plans: nat -> Plan
    var createAttempts: nat
    var deleteAttempts: nat
    ghost var orphans: nat

    constructor (creates: nat -> CreateFate, deletes: nat -> bool, plans: nat -> Plan)
      ensures this.creates == creates && this.deletes == deletes && this.plans == plans
      ensures createAttempts == 0 && deleteAttempts == 0 && orphans == 0
    {
      this.creates, this.deletes, this.plans := creates, deletes, plans;
      createAttempts, deleteAttempts, orphans := 0, 0, 0;
    }

    method Create() returns (r: Result<Created, Error>)
      requires createAttempts == 0 && orphans == 0
      modifies this`createAttempts, this`orphans
      ensures r == if FirstSession(creates, 0).Some? then Ok(FirstSession(creates, 0).value) else Err(Session)
      ensures createAttempts <= ATTEMPTS && orphans == Orphans(creates, 0) < if r.Ok? then ATTEMPTS else ATTEMPTS + 1
    {
      r := Err(Session);
      while createAttempts < ATTEMPTS
        invariant createAttempts <= ATTEMPTS && orphans <= createAttempts && r == Err(Session)
        invariant FirstSession(creates, 0) == FirstSession(creates, createAttempts)
        invariant orphans + Orphans(creates, createAttempts) == Orphans(creates, 0)
      {
        var fate := creates(createAttempts);
        createAttempts := createAttempts + 1;
        match fate
        case NotCreated =>
        case Orphan => orphans := orphans + 1;
        case Answers(session) =>
          return Ok(session);
      }
    }

    method Delete() returns (ok: bool)
      requires deleteAttempts == 0
      modifies this`deleteAttempts
      ensures 1 <= deleteAttempts <= ATTEMPTS
      ensures ok <==> deletes(deleteAttempts - 1)
      ensures !ok ==> deleteAttempts == ATTEMPTS
    {
      ok := false;
      while deleteAttempts < ATTEMPTS && !ok
        invariant 0 <= deleteAttempts <= ATTEMPTS
        invariant if deleteAttempts == 0 then !ok else ok == deletes(deleteAttempts - 1)
      {
        ok := deletes(deleteAttempts);
        deleteAttempts := deleteAttempts + 1;
      }
    }

    /**
     `open_async`: the outcome of the delete does not occur in the result, and a
     delete is attempted exactly when a session was created, however it drained.
     */
    method Open(ins: Instrument, lim: Limits) returns (r: Result<seq<ChainSnapshot>, Error>)
      requires createAttempts == 0 && deleteAttempts == 0 && orphans == 0
      modifies this
      ensures r == OpenOver(creates, plans, ins, lim)
      ensures if FirstSession(creates, 0).Some? then 1 <= deleteAttempts <= ATTEMPTS else deleteAttempts == 0
    {
      hide DrainOver, Sequence, TapeHash.HashableSnapshot, TapeHash.KeyedSnapshot;
      var session := Create();
      if session.Err? {
        return Err(Session);
      }
      var c := session.value;
      var link := new Link(c.walk, plans, c.current);
      var tape := Drain(link, SessionEnded(c.state, c.current, c.total), ins, lim);
      var deleted := Delete();
      if tape.Err? {
        return Err(tape.error);
      }
      if tape.value == [] {
        return Err(Conversion);
      }
      DrainedIsKeyed(c.walk, plans, SessionEnded(c.state, c.current, c.total), c.current, ins, lim);
      var identity := TapeHash.TapeBytes(tape.value);
      if identity.Err? {
        return Err(identity.error);
      }
      var meta := FromTape(tape.value);
      if meta.Err? {
        return Err(meta.error);
      }
      return Ok(tape.value);
    }
  }

  /** Every snapshot can be hashed into the tape identity. */
  predicate Identified(tape: seq<ChainSnapshot>)
  {
    forall i | 0 <= i < |tape| :: TapeHash.HashableSnapshot(tape[i])
  }

  /** An empty tape is refused, its identity is computed, and the sequence is validated once more. */
  function SettleDrain(drained: Result<seq<ChainSnapshot>, Error>): Result<seq<ChainSnapshot>, Error>
  {
    var tape :- drained;
    if tape == [] || !Identified(tape) then Err(Conversion)
    else
      var _ :- Sequence(tape);
      Ok(tape)
  }

  /** Every expiration of the chain lies within `i64` nanoseconds. */
  predicate ExpiriesFit(chain: Chain)
  {
    forall i | 0 <= i < |chain.contracts| ::
      chain.contracts[i].expiration.Some? ==> FitsI64(chain.contracts[i].expiration.value)
  }

  predicate ServedFits(walk: Walk, start: nat, i: nat)
  {
    ExpiriesFit(walk.chain(start + i))
  }

  lemma {:induction false} QuotesFitIffExpiriesFit(contracts: seq<ContractResponse>, size: u32)
    requires RawQuotes(contracts, size).Ok?
    ensures var quotes := RawQuotes(contracts, size).value;
            (forall k | 0 <= k < |quotes| :: InstantFits(quotes[k])) <==>
            (forall i | 0 <= i < |contracts| ::
               contracts[i].expiration.Some? ==> FitsI64(contracts[i].expiration.value))
  {
    if contracts != [] {
      QuotesFitIffExpiriesFit(contracts[1..], size);
      var quotes, rest := RawQuotes(contracts, size).value, RawQuotes(contracts[1..], size).value;
      assert rest == quotes[2..];
      assert contracts[0].expiration.Some? &&
          quotes[0].expiration == quotes[1].expiration == DateTime(contracts[0].expiration.value);
      assert forall k | 0 <= k < |rest| :: rest[k] == quotes[k + 2];
      assert forall k | 2 <= k < |quotes| :: quotes[k] == rest[k - 2];
      assert forall i | 1 <= i < |contracts| :: contracts[i] == contracts[1..][i - 1];
      assert forall i | 0 <= i < |contracts[1..]| :: contracts[1..][i] == contracts[i + 1];
    }
  }

  lemma ChainKeyed(chain: Chain, step: u32, ins: Instrument, anchor: i64)
    requires ChainToSnapshot(chain, step, ins, anchor).Ok? && FitsU64(|chain.contracts| * 2)
    ensures var s := ChainToSnapshot(chain, step, ins, anchor).value;
            TapeHash.KeyedSnapshot(s) && (TapeHash.HashableSnapshot(s) <==> ExpiriesFit(chain))
  {
    hide RawQuotes, Snapshot, TapeHash.KeyedSnapshot, TapeHash.HashableSnapshot;
    var quotes := RawQuotes(chain.contracts, ins.quoteSize).value;
    RowsRead(chain.contracts, ins.quoteSize);
    QuotesFitIffExpiriesFit(chain.contracts, ins.quoteSize);
    var meta := SnapshotMeta(chain.ts.value, step, anchor, NewUnderlying(chain.underlying).value, chain.price.value,
                             ins.tick, ins.multiplier);
    TapeHash.ConvertedIsHashable(meta, quotes);
  }

  /**
   The snapshots of a drained tape key themselves, and each can be hashed exactly
   when its chain's expirations fit.
   */
  lemma ServedKeyed(walk: Walk, start: nat, tape: seq<ChainSnapshot>, ins: Instrument, lim: Limits, i: nat)
    requires Consecutive(walk, start, tape, ins) && Capped(tape, lim) && i < |tape|
    ensures TapeHash.KeyedSnapshot(tape[i])
    ensures TapeHash.HashableSnapshot(tape[i]) <==> ServedFits(walk, start, i)
  {
    hide ChainToSnapshot, ExpiriesFit, TapeHash.KeyedSnapshot, TapeHash.HashableSnapshot;
    assert FitsU32(i);
    var anchor := walk.chain(start).ts.value;
    assert ServedSnapshot(walk, start, i, anchor, ins) == Ok(tape[i]);
    ChainKeepsQuotes(walk.chain(start + i), i, ins, anchor);
    ChainKeyed(walk.chain(start + i), i, ins, anchor);
  }

  lemma DrainedIsKeyed(walk: Walk, plans: nat -> Plan, ended: bool, start: nat, ins: Instrument, lim: Limits)
    requires DrainOver(walk, plans, 0, ended, start, ins, lim).Ok?
    ensures var tape := DrainOver(walk, plans, 0, ended, start, ins, lim).value;
            forall i | 0 <= i < |tape| :: TapeHash.KeyedSnapshot(tape[i])
  {
    hide Ideal, NetworkDrain, Reachable, Consecutive, Capped, TapeHash.KeyedSnapshot, TapeHash.HashableSnapshot;
    if !ended {
      NetworkDrainIsIdeal(walk, plans, 0, [], None, start, ins, lim);
      DrainedTape(walk, start, ins, lim);
      var tape := IdealDrain(walk, false, start, ins, lim).value;
      forall i | 0 <= i < |tape| ensures TapeHash.KeyedSnapshot(tape[i]) {
        ServedKeyed(walk, start, tape, ins, lim, i);
      }
    }
  }

  /**
   The final sequence validation never refuses a drained tape. The identity does,
   exactly when some served expiration lies outside `i64` nanoseconds, which
   conversion itself lets through.
   */
  lemma DrainedTapeSettles(walk: Walk, start: nat, ins: Instrument, lim: Limits)
    requires IdealDrain(walk, false, start, ins, lim).Ok?
    ensures var ideal := IdealDrain(walk, false, start, ins, lim);
            SettleDrain(ideal) ==
            if forall i | 0 <= i < |ideal.value| :: ServedFits(walk, start, i) then ideal else Err(Conversion)
  {
    hide IdealDrain, Sequence, ChainToSnapshot, ServedFits, Capped, TapeHash.KeyedSnapshot, TapeHash.HashableSnapshot;
    var tape := IdealDrain(walk, false, start, ins, lim).value;
    DrainedTape(walk, start, ins, lim);
    forall i | 0 <= i < |tape|
      ensures tape[i].step == i && (TapeHash.HashableSnapshot(tape[i]) <==> ServedFits(walk, start, i))
    {
      ServedKeyed(walk, start, tape, ins, lim, i);
      assert FitsU32(i);
      assert ServedSnapshot(walk, start, i, walk.chain(start).ts.value, ins) == Ok(tape[i]);
      StepKept(walk.chain(start + i), i, ins, walk.chain(start).ts.value);
    }
    SequenceComplete(tape);
  }

  lemma StepKept(chain: Chain, step: u32, ins: Instrument, anchor: i64)
    requires ChainToSnapshot(chain, step, ins, anchor).Ok?
    ensures ChainToSnapshot(chain, step, ins, anchor).value.step == step
  {
  }

  /**
   Opening a session succeeds exactly when one is created that has not ended,
   every advance is answered within its attempts, the served chains convert
   within the ceilings, and their expirations fit; then the tape is the ideal one.
   */
  lemma OpenSucceeds(creates: nat -> CreateFate, plans: nat -> Plan, ins: Instrument, lim: Limits)
    ensures OpenOver(creates, plans, ins, lim).Ok? <==>
            && FirstSession(creates, 0).Some?
            && var c := FirstSession(creates, 0).value;
               && !SessionEnded(c.state, c.current, c.total)
               && Reachable(c.walk, plans, 0, [], None, c.current, ins, lim)
               && var ideal := IdealDrain(c.walk, false, c.current, ins, lim);
                  ideal.Ok? && forall i | 0 <= i < |ideal.value| :: ServedFits(c.walk, c.current, i)
    ensures OpenOver(creates, plans, ins, lim).Ok? ==>
            var c := FirstSession(creates, 0).value;
            OpenOver(creates, plans, ins, lim) == IdealDrain(c.walk, false, c.current, ins, lim)
  {
    hide Ideal, NetworkDrain, Reachable, Sequence, FirstSession, SessionEnded, Identified, ServedFits;
    if FirstSession(creates, 0).Some? {
      var c := FirstSession(creates, 0).value;
      NetworkDrainIsIdeal(c.walk, plans, 0, [], None, c.current, ins, lim);
      if IdealDrain(c.walk, false, c.current, ins, lim).Ok? {
        DrainedTapeSettles(c.walk, c.current, ins, lim);
      }
    }
  }

  /** The session of the first of three create attempts that answers. */
  ghost predicate CreatedFirst(creates: nat -> CreateFate, c: Created)
  {
    exists k :: 0 <= k < 3 && creates(k) == Answers(c) && forall j | 0 <= j < k :: !creates(j).Answers?
  }

  lemma FirstIff(creates: nat -> CreateFate, c: Created)
    ensures FirstSession(creates, 0) == Some(c) <==> CreatedFirst(creates, c)
  {
    assert FirstSession(creates, 2) == if creates(2).Answers? then Some(creates(2).session) else None by {
      assert FirstSession(creates, 3) == None;
    }
    assert FirstSession(creates, 1) ==
           if creates(1).Answers? then Some(creates(1).session) else FirstSession(creates, 2);
    if FirstSession(creates, 0) == Some(c) {
      var k := if creates(0).Answers? then 0 else if creates(1).Answers? then 1 else 2;
      assert creates(k) == Answers(c);
    }
  }

  /** The session had not ended, and its drain and its settling go through and give `tape`. */
  ghost predicate OpensTo(c: Created, plans: nat -> Plan, ins: Instrument, lim: Limits, tape: seq<ChainSnapshot>)
  {
    && !c.state.Completed? && !c.state.Errored? && c.current < c.total
    && tape != [] && RendersWalk(c.walk, c.current, tape, ins, lim)
    && c.current + |tape| >= c.walk.total(c.current + |tape|)
    && (forall k | c.current < k < c.current + |tape| :: k < c.walk.total(k))
    && EveryStepAnswered(plans, 0, c.current, |tape|)
    && forall i | 0 <= i < |tape| :: ServedFits(c.walk, c.current, i)
  }

  lemma OpensIff(creates: nat -> CreateFate, c: Created, plans: nat -> Plan, ins: Instrument, lim: Limits,
                 tape: seq<ChainSnapshot>)
    requires FirstSession(creates, 0) == Some(c)
    ensures OpenOver(creates, plans, ins, lim) == Ok(tape) <==> OpensTo(c, plans, ins, lim, tape)
  {
    hide Ideal, Reachable, FirstSession, ServedFits, RendersWalk, OpenOver, EveryStepAnswered;
    OpenSucceeds(creates, plans, ins, lim);
    DrainIff(c.walk, c.current, ins, lim, tape);
    if IdealDrain(c.walk, false, c.current, ins, lim).Ok? {
      ReachableIff(c.walk, plans, 0, [], None, c.current, ins, lim);
    }
  }

  /**
   What opening yields, both ways: `tape` exactly when the first create answered
   in time gives a session neither completed nor failed nor at its last step,
   `tape` renders its chains up to the first step counted as the last, every one
   of its advances is answered within its attempts, and every expiration lies
   within `i64` nanoseconds.
   */
  lemma OpenIff(creates: nat -> CreateFate, plans: nat -> Plan, ins: Instrument, lim: Limits,
                tape: seq<ChainSnapshot>)
    ensures OpenOver(creates, plans, ins, lim) == Ok(tape) <==>
            exists c :: CreatedFirst(creates, c) && OpensTo(c, plans, ins, lim, tape)
  {
    hide FirstSession, CreatedFirst, OpensTo, OpenOver;
    OpenSucceeds(creates, plans, ins, lim);
    if FirstSession(creates, 0).Some? {
      var c := FirstSession(creates, 0).value;
      FirstIff(creates, c);
      OpensIff(creates, c, plans, ins, lim, tape);
    }
    forall c ensures CreatedFirst(creates, c) ==> FirstSession(creates, 0) == Some(c) { FirstIff(creates, c); }
  }

  // ---- An expiration outside the nanosecond range --------------------------

  /** One contract row, strike and both sides at `c` cents, expiring 2^63 nanoseconds after the epoch. */
  function FarContract(c: u64): ContractResponse
  {
    var side := SideResponse(Some(Ok(c)), Some(Ok(c)), None);
    ContractResponse(Ok(c), Some(I64_MAX + 1), Some(NO_GREEK), None, side, side)
  }

  function FarChain(c: u64): Chain
  {
    Chain("X", Some(0), Ok(c), [FarContract(c)])
  }

  function FarEntry(c: u64, style: Style): Entry
  {
    var key, z := ContractKey("X", DateTime(I64_MAX + 1), c, style), Decimal(0, 0, 0, 0);
    Entry(key, QuoteView(key, c, c, c, 1, 1, z, z, z, z, z))
  }

  lemma OwnMultiple(c: u64)
    requires c > 0
    ensures Remainder(c, c) == 0
  {
    assert Remainder(c - c, c) == 0;
  }

  lemma FarServes(c: u64, style: Style)
    requires 0 < c <= I64_MAX
    ensures Serves(FarEntry(c, style), FarChain(c), FarContract(c), style, Instrument(c, 1, 1))
  {
    OwnMultiple(c);
  }

  /** It renders, on a grid of that many cents, as a call and a put. */
  lemma FarChainConverts(c: u64, step: u32) returns (s: ChainSnapshot)
    requires 0 < c <= I64_MAX
    ensures Renders(FarChain(c), step, Instrument(c, 1, 1), s) && !ExpiriesFit(FarChain(c))
  {
    hide Serves, OrderKey;
    var call, put := FarEntry(c, Call), FarEntry(c, Put);
    var chain, ins := FarChain(c), Instrument(c, 1, 1);
    s := ChainSnapshot(0, step, "X", c, c, 1, [call, put]);
    FarServes(c, Call);
    FarServes(c, Put);
    OrderKeyIsFieldOrder(call.key, put.key);
    assert chain.contracts[0] == FarContract(c) && s.quotes[0] == call && s.quotes[1] == put;
    assert !FitsI64(chain.contracts[0].expiration.value);
    forall style ensures SomeEntry(s, chain, chain.contracts[0], style, ins) {
      var i := if style.Call? then 0 else 1;
      assert Serves(s.quotes[i], chain, chain.contracts[0], style, ins);
    }
    assert SomeSide(call, chain, ins) && SomeSide(put, chain, ins);
  }

  /** A walk of one such chain drains, and cannot be opened. */
  lemma FarExpiryDrainsButDoesNotOpen(c: u64, walk: Walk, creates: nat -> CreateFate, plans: nat -> Plan, lim: Limits)
    requires 0 < c <= I64_MAX && walk.chain(0) == FarChain(c) && walk.total(1) == 1
    requires creates(0) == Answers(Created(walk, Initialized, 0, 1)) && plans(0) == Plan([], Answered)
    requires lim.maxSteps >= 1 && lim.maxContractsPerSnapshot >= 2
    requires 2 * lim.quoteSize + lim.snapshotSize <= lim.maxTotalBytes
    ensures DrainOver(walk, plans, 0, false, 0, Instrument(c, 1, 1), lim).Ok?
    ensures OpenOver(creates, plans, Instrument(c, 1, 1), lim) == Err(Conversion)
  {
    hide ChainToSnapshot, TapeHash.HashableSnapshot, TapeHash.KeyedSnapshot, ExpiriesFit, Renders;
    var ins := Instrument(c, 1, 1);
    var s := FarChainConverts(c, 0);
    FarFits(c, s);
    ChainIff(FarChain(c), 0, ins, 0, s);
    ChainKeyed(FarChain(c), 0, ins, 0);
    assert walk.EndsAt(1);
    assert Absorb([], FarChain(c), None, ins, lim) == Ok([s]) by {
      assert [s][..0] == [] && [] + [s] == [s];
    }
    assert FirstSession(creates, 0) == Some(creates(0).session);
    assert DrainOver(walk, plans, 0, false, 0, ins, lim) == Ok([s]);
  }

  lemma FarFits(c: u64, s: ChainSnapshot)
    requires 0 < c <= I64_MAX && Renders(FarChain(c), 0, Instrument(c, 1, 1), s)
    ensures |s.quotes| == 2
  {
    hide Renders;
    ChainIff(FarChain(c), 0, Instrument(c, 1, 1), 0, s);
    ChainKeepsQuotes(FarChain(c), 0, Instrument(c, 1, 1), 0);
  }
}
