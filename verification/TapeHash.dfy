/** The preimage of the tape identity, byte by byte (src/data/simulator.rs, `tape_sha256`). */
module TapeHash {
  import opened Common
  import opened Market
  import opened ContractId
  import opened Convert

  /** Little-endian bytes of an unsigned integer of `width` bytes. */
  function Le(n: nat, width: nat): (r: Bytes)
    ensures |r| == width
  {
    if width == 0 then [] else [n % 256] + Le(n / 256, width - 1)
  }

  function Pow256(width: nat): nat
  {
    if width == 0 then 1 else 256 * Pow256(width - 1)
  }

  lemma {:induction false} LeInjective(a: nat, b: nat, width: nat)
    requires a < Pow256(width) && b < Pow256(width)
    requires Le(a, width) == Le(b, width)
    ensures a == b
  {
    if width > 0 {
      assert Le(a, width)[1..] == Le(a / 256, width - 1);
      assert Le(b, width)[1..] == Le(b / 256, width - 1);
      assert Le(a, width)[0] == a % 256 && Le(b, width)[0] == b % 256;
      LeInjective(a / 256, b / 256, width - 1);
    }
  }

  lemma Widths()
    ensures Pow256(4) == U32_MAX + 1 && Pow256(8) == U64_MAX + 1
  {
    assert Pow256(2) == 0x1_0000;
    assert Pow256(4) == 0x1_0000_0000;
    assert Pow256(6) == 0x1_0000_0000_0000;
  }

  /** The two's complement reading of a signed 64-bit integer. */
  function Unsigned(n: i64): u64
  {
    var m: int := n;
    if m < 0 then m + U64_MAX + 1 else m
  }

  function TextBytes(s: string): (r: Bytes)
    requires Ascii(s)
    ensures |r| == |s| && forall i | 0 <= i < |s| :: r[i] == s[i] as int
  {
    seq(|s|, i requires 0 <= i < |s| => s[i] as int)
  }

  predicate Ascii(s: string)
  {
    forall i | 0 <= i < |s| :: s[i] as int < 128
  }

  lemma TextInjective(a: string, b: string)
    requires Ascii(a) && Ascii(b) && TextBytes(a) == TextBytes(b)
    ensures a == b
  {
    assert |a| == |b|;
    forall i | 0 <= i < |a| ensures a[i] == b[i] {
      assert TextBytes(a)[i] == TextBytes(b)[i];
    }
  }

  // ---- Records, each written in front of what follows it ------------------

  function PutU32(n: u32, rest: Bytes): Bytes { Le(n, 4) + rest }
  function PutU64(n: u64, rest: Bytes): Bytes { Le(n, 8) + rest }
  function PutI64(n: i64, rest: Bytes): Bytes { Le(Unsigned(n), 8) + rest }

  /** `update_bytes`: a length, then the bytes. */
  function PutText(s: string, rest: Bytes): Bytes
    requires Ascii(s) && FitsU64(|s|)
  {
    PutU64(|s|, TextBytes(s) + rest)
  }

  function PutDecimal(d: Decimal, rest: Bytes): Bytes
  {
    PutU32(d.flags, PutU32(d.lo, PutU32(d.mid, PutU32(d.hi, rest))))
  }

  /** An entry as conversion leaves it: resolved, and its view keyed like itself. */
  predicate Hashable(e: Entry)
  {
    Resolved(e.key) && e.view.contract == e.key
  }

  function IdOf(k: ContractKey): (s: string)
    requires Resolved(k)
  {
    ToContractId(k).value
  }

  lemma {:induction false} DigitsAscii(n: nat)
    ensures Ascii(Digits(n))
  {
    assert forall i | 0 <= i < |Digits(n)| :: Digits(n)[i] in Digits(n);
  }

  lemma {:induction false} DigitsShort(n: nat, width: nat)
    requires 0 < width && n < Pow10(width)
    ensures |Digits(n)| <= width
  {
    assert Pow10(1) == 10 * Pow10(0);
    if n >= 10 {
      DigitsShort(n / 10, width - 1);
    }
  }

  lemma IdShort(k: ContractKey)
    requires Resolved(k)
    ensures |IdOf(k)| <= 82
  {
    assert Pow10(4) == 10000;
    assert Pow10(8) == 1_0000_0000;
    assert Pow10(12) == 1_0000_0000_0000;
    assert Pow10(16) == 1_0000_0000_0000_0000;
    assert Pow10(20) == 1_0000_0000_0000_0000_0000;
    var n := k.expiration.ns;
    DigitsShort(k.strike, 20);
    if n < 0 { DigitsShort(-n, 20); } else { DigitsShort(n, 20); }
  }

  lemma IdAscii(k: ContractKey)
    requires Resolved(k)
    ensures Ascii(IdOf(k)) && Ascii(k.underlying) && FitsU64(|IdOf(k)|)
  {
    IdShort(k);
    var n := k.expiration.ns;
    DigitsAscii(k.strike);
    if n < 0 { DigitsAscii(-n); } else { DigitsAscii(n); }
    TickerAscii(k.underlying);
    JoinAscii(VERSION, k.underlying, PrintInt(n), Digits(k.strike), StyleCode(k.style));
  }

  lemma TickerAscii(s: string)
    requires ValidTicker(s)
    ensures Ascii(s)
  {
    forall i | 0 <= i < |s| ensures s[i] as int < 128 {
      assert s[i] in s;
    }
  }

  lemma AppendAscii(a: string, b: string)
    requires Ascii(a) && Ascii(b)
    ensures Ascii(a + ":" + b)
  {
  }

  lemma JoinAscii(a: string, b: string, c: string, d: string, e: string)
    requires Ascii(a) && Ascii(b) && Ascii(c) && Ascii(d) && Ascii(e)
    ensures Ascii(JoinFive(a, b, c, d, e))
  {
    AppendAscii(d, e);
    AppendAscii(c, d + ":" + e);
    AppendAscii(b, c + ":" + (d + ":" + e));
    AppendAscii(a, b + ":" + (c + ":" + (d + ":" + e)));
  }

  /** Every entry keys itself; only the range of its instants is open. */
  predicate KeyedSnapshot(s: ChainSnapshot)
  {
    ValidTicker(s.underlying) && FitsU64(|s.quotes|) && forall i | 0 <= i < |s.quotes| :: Keyed(s.quotes[i])
  }

  /**
   What conversion builds can be hashed exactly when every absolute expiry it
   was given lies within `i64` nanoseconds.
   */
  lemma ConvertedIsHashable(meta: SnapshotMeta, quotes: seq<RawQuote>)
    requires ValidTicker(meta.underlying) && FitsU64(|quotes|) && Snapshot(meta, quotes).Ok?
    ensures KeyedSnapshot(Snapshot(meta, quotes).value)
    ensures HashableSnapshot(Snapshot(meta, quotes).value) <==> forall k | 0 <= k < |quotes| :: InstantFits(quotes[k])
  {
    hide InstantFits;
    QuoteOrderIrrelevant(meta, quotes, quotes);
    var s := Snapshot(meta, quotes).value;
    forall i | 0 <= i < |s.quotes| ensures Keyed(s.quotes[i]) {
      ConvertedEntriesKeyed(meta, quotes, i);
    }
    ResolvedIffInstantsFit(meta, quotes);
  }

  function PutEntry(e: Entry, rest: Bytes): Bytes
    requires Hashable(e)
  {
    IdAscii(e.key);
    var v := e.view;
    PutText(IdOf(e.key),
      PutU64(v.bid, PutU64(v.ask, PutU64(v.mid, PutU32(v.bidSize, PutU32(v.askSize,
        PutDecimal(v.iv, PutDecimal(v.delta, PutDecimal(v.gamma, PutDecimal(v.theta, PutDecimal(v.vega, rest)))))))))))
  }

  function PutEntries(es: seq<Entry>, rest: Bytes): Bytes
    requires forall i | 0 <= i < |es| :: Hashable(es[i])
  {
    if es == [] then rest else PutEntry(es[0], PutEntries(es[1..], rest))
  }

  /** A converted snapshot: valid ticker, counts that fit, hashable entries. */
  predicate HashableSnapshot(s: ChainSnapshot)
  {
    ValidTicker(s.underlying) && FitsU64(|s.quotes|) && forall i | 0 <= i < |s.quotes| :: Hashable(s.quotes[i])
  }

  function PutSnapshot(s: ChainSnapshot, rest: Bytes): Bytes
    requires HashableSnapshot(s)
  {
    TickerAscii(s.underlying);
    PutI64(s.ts, PutU32(s.step, PutText(s.underlying, PutU64(s.underlyingPrice, PutU64(s.tick,
      PutU32(s.multiplier, PutU64(|s.quotes|, PutEntries(s.quotes, rest))))))))
  }

  function Records(tape: seq<ChainSnapshot>): Bytes
    requires forall i | 0 <= i < |tape| :: HashableSnapshot(tape[i])
  {
    if tape == [] then [] else PutSnapshot(tape[0], Records(tape[1..]))
  }

  /** The domain tag `ironcondor.tape.v1` closed by a zero byte. */
  const TAG: Bytes :=
    [105, 114, 111, 110, 99, 111, 110, 100, 111, 114, 46, 116, 97, 112, 101, 46, 118, 49, 0]

  function Preimage(tape: seq<ChainSnapshot>): Bytes
    requires forall i | 0 <= i < |tape| :: HashableSnapshot(tape[i])
  {
    TAG + Records(tape)
  }

  // ---- Every record is self-delimiting ------------------------------------

  lemma GetU32(a: u32, x: Bytes, b: u32, y: Bytes)
    requires PutU32(a, x) == PutU32(b, y)
    ensures a == b && x == y
  {
    SameSplit(Le(a, 4), x, Le(b, 4), y);
    Widths();
    LeInjective(a, b, 4);
  }

  lemma GetU64(a: u64, x: Bytes, b: u64, y: Bytes)
    requires PutU64(a, x) == PutU64(b, y)
    ensures a == b && x == y
  {
    SameSplit(Le(a, 8), x, Le(b, 8), y);
    Widths();
    LeInjective(a, b, 8);
  }

  lemma GetI64(a: i64, x: Bytes, b: i64, y: Bytes)
    requires PutI64(a, x) == PutI64(b, y)
    ensures a == b && x == y
  {
    GetU64(Unsigned(a), x, Unsigned(b), y);
  }

  lemma GetText(a: string, x: Bytes, b: string, y: Bytes)
    requires Ascii(a) && FitsU64(|a|) && Ascii(b) && FitsU64(|b|)
    requires PutText(a, x) == PutText(b, y)
    ensures a == b && x == y
  {
    GetU64(|a|, TextBytes(a) + x, |b|, TextBytes(b) + y);
    SameSplit(TextBytes(a), x, TextBytes(b), y);
    TextInjective(a, b);
  }

  lemma GetDecimal(a: Decimal, x: Bytes, b: Decimal, y: Bytes)
    requires PutDecimal(a, x) == PutDecimal(b, y)
    ensures a == b && x == y
  {
    hide PutU32;
    GetU32(a.flags, PutU32(a.lo, PutU32(a.mid, PutU32(a.hi, x))),
           b.flags, PutU32(b.lo, PutU32(b.mid, PutU32(b.hi, y))));
    GetU32(a.lo, PutU32(a.mid, PutU32(a.hi, x)), b.lo, PutU32(b.mid, PutU32(b.hi, y)));
    GetU32(a.mid, PutU32(a.hi, x), b.mid, PutU32(b.hi, y));
    GetU32(a.hi, x, b.hi, y);
  }

  function PutGreeks(v: QuoteView, rest: Bytes): Bytes
  {
    PutDecimal(v.iv, PutDecimal(v.delta, PutDecimal(v.gamma, PutDecimal(v.theta, PutDecimal(v.vega, rest)))))
  }

  lemma GetGreeks(a: QuoteView, x: Bytes, b: QuoteView, y: Bytes)
    requires PutGreeks(a, x) == PutGreeks(b, y)
    ensures a.iv == b.iv && a.delta == b.delta && a.gamma == b.gamma && a.theta == b.theta && a.vega == b.vega && x == y
  {
    hide PutDecimal;
    var ax, bx := PutDecimal(a.vega, x), PutDecimal(b.vega, y);
    var at, bt := PutDecimal(a.theta, ax), PutDecimal(b.theta, bx);
    var ag, bg := PutDecimal(a.gamma, at), PutDecimal(b.gamma, bt);
    var ad, bd := PutDecimal(a.delta, ag), PutDecimal(b.delta, bg);
    GetDecimal(a.iv, ad, b.iv, bd);
    GetDecimal(a.delta, ag, b.delta, bg);
    GetDecimal(a.gamma, at, b.gamma, bt);
    GetDecimal(a.theta, ax, b.theta, bx);
    GetDecimal(a.vega, x, b.vega, y);
  }

  lemma GetEntry(a: Entry, x: Bytes, b: Entry, y: Bytes)
    requires Hashable(a) && Hashable(b)
    requires PutEntry(a, x) == PutEntry(b, y)
    ensures a == b && x == y
  {
    hide PutText, PutU64, PutU32, PutDecimal;
    var v, w := a.view, b.view;
    IdAscii(a.key);
    IdAscii(b.key);
    var ag, bg := PutGreeks(v, x), PutGreeks(w, y);
    var as_, bs := PutU32(v.askSize, ag), PutU32(w.askSize, bg);
    var ab, bb := PutU32(v.bidSize, as_), PutU32(w.bidSize, bs);
    var am, bm := PutU64(v.mid, ab), PutU64(w.mid, bb);
    var aa, ba := PutU64(v.ask, am), PutU64(w.ask, bm);
    var ai, bi := PutU64(v.bid, aa), PutU64(w.bid, ba);
    GetText(IdOf(a.key), ai, IdOf(b.key), bi);
    GetU64(v.bid, aa, w.bid, ba);
    GetU64(v.ask, am, w.ask, bm);
    GetU64(v.mid, ab, w.mid, bb);
    GetU32(v.bidSize, as_, w.bidSize, bs);
    GetU32(v.askSize, ag, w.askSize, bg);
    GetGreeks(v, x, w, y);
    IdInjective(a.key, b.key);
  }

  lemma {:induction false} GetEntries(a: seq<Entry>, x: Bytes, b: seq<Entry>, y: Bytes)
    requires |a| == |b|
    requires forall i | 0 <= i < |a| :: Hashable(a[i])
    requires forall i | 0 <= i < |b| :: Hashable(b[i])
    requires PutEntries(a, x) == PutEntries(b, y)
    ensures a == b && x == y
  {
    hide PutEntry, Hashable;
    if a != [] {
      GetEntry(a[0], PutEntries(a[1..], x), b[0], PutEntries(b[1..], y));
      GetEntries(a[1..], x, b[1..], y);
      assert a == [a[0]] + a[1..] && b == [b[0]] + b[1..];
    }
  }

  lemma GetSnapshot(a: ChainSnapshot, x: Bytes, b: ChainSnapshot, y: Bytes)
    requires HashableSnapshot(a) && HashableSnapshot(b)
    requires PutSnapshot(a, x) == PutSnapshot(b, y)
    ensures a == b && x == y
  {
    hide PutText, PutU64, PutU32, PutI64, PutEntries;
    TickerAscii(a.underlying);
    TickerAscii(b.underlying);
    var aq, bq := PutEntries(a.quotes, x), PutEntries(b.quotes, y);
    var an, bn := PutU64(|a.quotes|, aq), PutU64(|b.quotes|, bq);
    var am, bm := PutU32(a.multiplier, an), PutU32(b.multiplier, bn);
    var at, bt := PutU64(a.tick, am), PutU64(b.tick, bm);
    var ap, bp := PutU64(a.underlyingPrice, at), PutU64(b.underlyingPrice, bt);
    var au, bu := PutText(a.underlying, ap), PutText(b.underlying, bp);
    var as_, bs := PutU32(a.step, au), PutU32(b.step, bu);
    GetI64(a.ts, as_, b.ts, bs);
    GetU32(a.step, au, b.step, bu);
    GetText(a.underlying, ap, b.underlying, bp);
    GetU64(a.underlyingPrice, at, b.underlyingPrice, bt);
    GetU64(a.tick, am, b.tick, bm);
    GetU32(a.multiplier, an, b.multiplier, bn);
    GetU64(|a.quotes|, aq, |b.quotes|, bq);
    GetEntries(a.quotes, x, b.quotes, y);
  }

  lemma {:induction false} GetRecords(a: seq<ChainSnapshot>, b: seq<ChainSnapshot>)
    requires forall i | 0 <= i < |a| :: HashableSnapshot(a[i])
    requires forall i | 0 <= i < |b| :: HashableSnapshot(b[i])
    requires Records(a) == Records(b)
    ensures a == b
  {
    hide HashableSnapshot, PutEntries, PutU32, PutText;
    if a != [] && b != [] {
      GetSnapshot(a[0], Records(a[1..]), b[0], Records(b[1..]));
      GetRecords(a[1..], b[1..]);
      assert a == [a[0]] + a[1..] && b == [b[0]] + b[1..];
    }
  }

  /**
   Equal preimages come from equal tapes, field for field, although neither the
   number of snapshots nor the end of the tape is written.
   */
  lemma PreimageInjective(a: seq<ChainSnapshot>, b: seq<ChainSnapshot>)
    requires forall i | 0 <= i < |a| :: HashableSnapshot(a[i])
    requires forall i | 0 <= i < |b| :: HashableSnapshot(b[i])
    requires Preimage(a) == Preimage(b)
    ensures a == b
  {
    SameSplit(TAG, Records(a), TAG, Records(b));
    GetRecords(a, b);
  }

  // ---- The bytes, written out ---------------------------------------------

  /** The number a byte string spells, the lowest byte first. */
  function ReadLe(b: Bytes): nat
    requires forall i | 0 <= i < |b| :: 0 <= b[i]
  {
    if b == [] then 0 else b[0] + 256 * ReadLe(b[1..])
  }

  lemma {:induction false} LeReads(n: nat, width: nat)
    requires n < Pow256(width)
    ensures forall i | 0 <= i < width :: 0 <= Le(n, width)[i] < 256
    ensures ReadLe(Le(n, width)) == n
  {
    if width > 0 {
      LeReads(n / 256, width - 1);
      var b := Le(n, width);
      assert b[1..] == Le(n / 256, width - 1);
      assert forall i | 1 <= i < width :: b[i] == b[1..][i - 1];
    }
  }

  /** Sign and scale, then the mantissa, the lowest word first. */
  function DecimalBytes(d: Decimal, rest: Bytes): Bytes
  {
    Le(d.flags, 4) + (Le(d.lo, 4) + (Le(d.mid, 4) + (Le(d.hi, 4) + rest)))
  }

  /** One quote: identifier, prices, sizes, volatility and Greeks. */
  function QuoteBytes(id: string, v: QuoteView, rest: Bytes): Bytes
    requires Ascii(id) && FitsU64(|id|)
  {
    Le(|id|, 8) + (TextBytes(id) + (Le(v.bid, 8) + (Le(v.ask, 8) + (Le(v.mid, 8) + (
      Le(v.bidSize, 4) + (Le(v.askSize, 4) +
      DecimalBytes(v.iv, DecimalBytes(v.delta, DecimalBytes(v.gamma, DecimalBytes(v.theta,
        DecimalBytes(v.vega, rest)))))))))))
  }

  function QuotesBytes(es: seq<Entry>, rest: Bytes): Bytes
    requires forall i | 0 <= i < |es| :: Hashable(es[i])
  {
    if es == [] then rest
    else
      assert Hashable(es[0]);
      IdAscii(es[0].key);
      QuoteBytes(IdOf(es[0].key), es[0].view, QuotesBytes(es[1..], rest))
  }

  /** One snapshot: two's complement time, step, ticker, price, tick, multiplier, and its quotes behind their count. */
  function SnapshotBytes(s: ChainSnapshot, rest: Bytes): Bytes
    requires HashableSnapshot(s)
  {
    TickerAscii(s.underlying);
    var ts: int := s.ts;
    Le(if ts < 0 then ts + 0x1_0000_0000_0000_0000 else ts, 8) + (Le(s.step, 4) + (
      Le(|s.underlying|, 8) + (TextBytes(s.underlying) + (Le(s.underlyingPrice, 8) + (Le(s.tick, 8) + (
        Le(s.multiplier, 4) + (Le(|s.quotes|, 8) + QuotesBytes(s.quotes, rest))))))))
  }

  function SnapshotsBytes(tape: seq<ChainSnapshot>): Bytes
    requires forall i | 0 <= i < |tape| :: HashableSnapshot(tape[i])
  {
    if tape == [] then [] else SnapshotBytes(tape[0], SnapshotsBytes(tape[1..]))
  }

  lemma DecimalWritten(d: Decimal, rest: Bytes)
    ensures PutDecimal(d, rest) == DecimalBytes(d, rest)
  {
  }

  lemma QuoteWritten(e: Entry, rest: Bytes)
    requires Hashable(e)
    ensures Ascii(IdOf(e.key)) && FitsU64(|IdOf(e.key)|)
    ensures PutEntry(e, rest) == QuoteBytes(IdOf(e.key), e.view, rest)
  {
    hide PutDecimal, DecimalBytes, Le, IdOf;
    IdAscii(e.key);
    var v := e.view;
    DecimalWritten(v.vega, rest);
    DecimalWritten(v.theta, DecimalBytes(v.vega, rest));
    DecimalWritten(v.gamma, DecimalBytes(v.theta, DecimalBytes(v.vega, rest)));
    DecimalWritten(v.delta, DecimalBytes(v.gamma, DecimalBytes(v.theta, DecimalBytes(v.vega, rest))));
    DecimalWritten(v.iv, DecimalBytes(v.delta, DecimalBytes(v.gamma,
      DecimalBytes(v.theta, DecimalBytes(v.vega, rest)))));
  }

  lemma {:induction false} QuotesWritten(es: seq<Entry>, rest: Bytes)
    requires forall i | 0 <= i < |es| :: Hashable(es[i])
    ensures PutEntries(es, rest) == QuotesBytes(es, rest)
  {
    hide PutEntry, QuoteBytes, Hashable, IdOf;
    if es != [] {
      QuotesWritten(es[1..], rest);
      QuoteWritten(es[0], PutEntries(es[1..], rest));
    }
  }

  lemma SnapshotWritten(s: ChainSnapshot, rest: Bytes)
    requires HashableSnapshot(s)
    ensures PutSnapshot(s, rest) == SnapshotBytes(s, rest)
  {
    hide PutEntries, QuotesBytes, Le, Hashable;
    QuotesWritten(s.quotes, rest);
  }

  /**
   The hashed bytes of a tape, field by field: the tag closed by a zero byte, then
   the snapshots, every number little-endian (`LeReads`) and every text behind
   its length.
   */
  lemma TapeWritten(tape: seq<ChainSnapshot>)
    requires forall i | 0 <= i < |tape| :: HashableSnapshot(tape[i])
    ensures Ascii("ironcondor.tape.v1")
    ensures Preimage(tape) == TextBytes("ironcondor.tape.v1") + [0] + SnapshotsBytes(tape)
  {
    hide PutSnapshot, SnapshotBytes, HashableSnapshot, Records, SnapshotsBytes;
    TagSpelled();
    RecordsWritten(tape);
  }

  lemma TagSpelled()
    ensures Ascii("ironcondor.tape.v1") && TAG == TextBytes("ironcondor.tape.v1") + [0]
  {
  }

  lemma {:induction false} RecordsWritten(tape: seq<ChainSnapshot>)
    requires forall i | 0 <= i < |tape| :: HashableSnapshot(tape[i])
    ensures Records(tape) == SnapshotsBytes(tape)
  {
    hide PutSnapshot, SnapshotBytes, HashableSnapshot;
    if tape != [] {
      RecordsWritten(tape[1..]);
      SnapshotWritten(tape[0], Records(tape[1..]));
    }
  }

  // ---- tape_sha256: the same bytes, folded front to back ------------------

  lemma U32Append(n: u32, x: Bytes, rest: Bytes)
    ensures PutU32(n, x) + rest == PutU32(n, x + rest)
  {
  }

  lemma U64Append(n: u64, x: Bytes, rest: Bytes)
    ensures PutU64(n, x) + rest == PutU64(n, x + rest)
    ensures FitsI64(n) ==> PutI64(n, x) + rest == PutI64(n, x + rest)
  {
  }

  lemma TextAppend(s: string, x: Bytes, rest: Bytes)
    requires Ascii(s) && FitsU64(|s|)
    ensures PutText(s, x) + rest == PutText(s, x + rest)
  {
    assert TextBytes(s) + x + rest == TextBytes(s) + (x + rest);
  }

  lemma DecimalAppend(d: Decimal, x: Bytes, rest: Bytes)
    ensures PutDecimal(d, x) + rest == PutDecimal(d, x + rest)
  {
    hide PutU32;
    U32Append(d.hi, x, rest);
    U32Append(d.mid, PutU32(d.hi, x), rest);
    U32Append(d.lo, PutU32(d.mid, PutU32(d.hi, x)), rest);
    U32Append(d.flags, PutU32(d.lo, PutU32(d.mid, PutU32(d.hi, x))), rest);
  }

  lemma GreeksAppend(v: QuoteView, x: Bytes, rest: Bytes)
    ensures PutGreeks(v, x) + rest == PutGreeks(v, x + rest)
  {
    hide PutDecimal;
    var ax := PutDecimal(v.vega, x);
    var at := PutDecimal(v.theta, ax);
    var ag := PutDecimal(v.gamma, at);
    var ad := PutDecimal(v.delta, ag);
    DecimalAppend(v.vega, x, rest);
    DecimalAppend(v.theta, ax, rest);
    DecimalAppend(v.gamma, at, rest);
    DecimalAppend(v.delta, ag, rest);
    DecimalAppend(v.iv, ad, rest);
  }

  lemma EntryAppend(e: Entry, x: Bytes, rest: Bytes)
    requires Hashable(e)
    ensures PutEntry(e, x) + rest == PutEntry(e, x + rest)
  {
    hide PutText, PutU64, PutU32, PutDecimal;
    IdAscii(e.key);
    var v := e.view;
    var ag := PutGreeks(v, x);
    var as_ := PutU32(v.askSize, ag);
    var ab := PutU32(v.bidSize, as_);
    var am := PutU64(v.mid, ab);
    var aa := PutU64(v.ask, am);
    GreeksAppend(v, x, rest);
    U32Append(v.askSize, ag, rest);
    U32Append(v.bidSize, as_, rest);
    U64Append(v.mid, ab, rest);
    U64Append(v.ask, am, rest);
    U64Append(v.bid, aa, rest);
    TextAppend(IdOf(e.key), PutU64(v.bid, aa), rest);
  }

  /** The fields of a snapshot ahead of its quotes. */
  function PutHead(s: ChainSnapshot, rest: Bytes): Bytes
    requires ValidTicker(s.underlying) && FitsU64(|s.quotes|)
  {
    TickerAscii(s.underlying);
    PutI64(s.ts, PutU32(s.step, PutText(s.underlying, PutU64(s.underlyingPrice, PutU64(s.tick,
      PutU32(s.multiplier, PutU64(|s.quotes|, rest)))))))
  }

  lemma HeadAppend(s: ChainSnapshot, x: Bytes, rest: Bytes)
    requires ValidTicker(s.underlying) && FitsU64(|s.quotes|)
    ensures PutHead(s, x) + rest == PutHead(s, x + rest)
  {
    hide PutText, PutU64, PutU32;
    TickerAscii(s.underlying);
    var an := PutU64(|s.quotes|, x);
    var am := PutU32(s.multiplier, an);
    var at := PutU64(s.tick, am);
    var ap := PutU64(s.underlyingPrice, at);
    var au := PutText(s.underlying, ap);
    var tail := PutU32(s.step, au);
    U64Append(|s.quotes|, x, rest);
    U32Append(s.multiplier, an, rest);
    U64Append(s.tick, am, rest);
    U64Append(s.underlyingPrice, at, rest);
    TextAppend(s.underlying, ap, rest);
    U32Append(s.step, au, rest);
    assert Le(Unsigned(s.ts), 8) + tail + rest == Le(Unsigned(s.ts), 8) + (tail + rest);
  }

  lemma {:induction false} EntriesAppend(es: seq<Entry>, x: Bytes, rest: Bytes)
    requires forall i | 0 <= i < |es| :: Hashable(es[i])
    ensures PutEntries(es, x) + rest == PutEntries(es, x + rest)
  {
    hide PutEntry, Hashable;
    if es != [] {
      EntriesAppend(es[1..], x, rest);
      EntryAppend(es[0], PutEntries(es[1..], x), rest);
    }
  }

  lemma {:induction false} EntriesSnoc(es: seq<Entry>, e: Entry, rest: Bytes)
    requires (forall i | 0 <= i < |es| :: Hashable(es[i])) && Hashable(e)
    ensures PutEntries(es + [e], rest) == PutEntries(es, PutEntry(e, rest))
  {
    hide PutEntry, Hashable;
    if es == [] {
      assert es + [e] == [e] && [e][1..] == [];
    } else {
      assert (es + [e])[1..] == es[1..] + [e];
      EntriesSnoc(es[1..], e, rest);
    }
  }

  lemma SnapshotAppend(s: ChainSnapshot, x: Bytes, rest: Bytes)
    requires HashableSnapshot(s)
    ensures PutSnapshot(s, x) == PutHead(s, PutEntries(s.quotes, x))
    ensures PutSnapshot(s, x) + rest == PutSnapshot(s, x + rest)
  {
    hide PutText, PutU64, PutU32, PutI64, PutEntries;
    EntriesAppend(s.quotes, x, rest);
    HeadAppend(s, PutEntries(s.quotes, x), rest);
  }

  lemma {:induction false} RecordsSnoc(tape: seq<ChainSnapshot>, s: ChainSnapshot)
    requires (forall i | 0 <= i < |tape| :: HashableSnapshot(tape[i])) && HashableSnapshot(s)
    ensures Records(tape + [s]) == Records(tape) + PutSnapshot(s, [])
  {
    hide PutSnapshot, HashableSnapshot;
    if tape == [] {
      assert tape + [s] == [s] && [s][1..] == [];
    } else {
      assert (tape + [s])[1..] == tape[1..] + [s];
      RecordsSnoc(tape[1..], s);
      SnapshotAppend(tape[0], Records(tape[1..]), PutSnapshot(s, []));
    }
  }

  lemma KeyPrints(e: Entry)
    requires Keyed(e)
    ensures Hashable(e) <==> ToContractId(e.key).Ok?
    ensures ToContractId(e.key).Err? ==> ToContractId(e.key) == Err(Conversion)
  {
  }

  /** Fold the quotes of one snapshot, in map order. */
  method FoldQuotes(hasher: Bytes, quotes: seq<Entry>) returns (r: Result<Bytes, Error>)
    requires forall j | 0 <= j < |quotes| :: Keyed(quotes[j])
    ensures (forall j | 0 <= j < |quotes| :: Hashable(quotes[j])) ==> r == Ok(hasher + PutEntries(quotes, []))
    ensures !(forall j | 0 <= j < |quotes| :: Hashable(quotes[j])) ==> r == Err(Conversion)
  {
    hide PutEntry, ToContractId, Hashable, Keyed;
    var out := hasher;
    var j := 0;
    while j < |quotes|
      invariant 0 <= j <= |quotes|
      invariant forall k | 0 <= k < j :: Hashable(quotes[k])
      invariant out == hasher + PutEntries(quotes[..j], [])
    {
      var e := quotes[j];
      KeyPrints(e);
      var id := ToContractId(e.key);
      if id.Err? {
        return Err(id.error);
      }
      out := out + PutEntry(e, []);
      assert quotes[..j + 1] == quotes[..j] + [e];
      EntriesSnoc(quotes[..j], e, []);
      EntriesAppend(quotes[..j], [], PutEntry(e, []));
      assert [] + PutEntry(e, []) == PutEntry(e, []);
      j := j + 1;
    }
    assert quotes[..j] == quotes;
    return Ok(out);
  }

  /** The hashed bytes, or the error of the first key that prints no identifier. */
  method TapeBytes(tape: seq<ChainSnapshot>) returns (r: Result<Bytes, Error>)
    requires forall i | 0 <= i < |tape| :: KeyedSnapshot(tape[i])
    ensures (forall i | 0 <= i < |tape| :: HashableSnapshot(tape[i])) ==> r == Ok(Preimage(tape))
    ensures !(forall i | 0 <= i < |tape| :: HashableSnapshot(tape[i])) ==> r == Err(Conversion)
  {
    hide PutHead, PutEntry, PutEntries, PutSnapshot, ToContractId, Hashable, Keyed;
    var hasher := TAG;
    var i := 0;
    while i < |tape|
      invariant 0 <= i <= |tape|
      invariant forall k | 0 <= k < i :: HashableSnapshot(tape[k])
      invariant hasher == Preimage(tape[..i])
    {
      var s := tape[i];
      hasher := hasher + PutHead(s, []);
      var folded := FoldQuotes(hasher, s.quotes);
      if folded.Err? {
        return Err(folded.error);
      }
      assert HashableSnapshot(s);
      assert folded.value == Preimage(tape[..i]) + PutSnapshot(s, []) by {
        SnapshotAppend(s, [], []);
        HeadAppend(s, [], PutEntries(s.quotes, []));
        assert [] + PutEntries(s.quotes, []) == PutEntries(s.quotes, []);
      }
      assert tape[..i + 1] == tape[..i] + [s];
      RecordsSnoc(tape[..i], s);
      hasher := folded.value;
      i := i + 1;
    }
    assert tape[..i] == tape;
    return Ok(hasher);
  }
}
