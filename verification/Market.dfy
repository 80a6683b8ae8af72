/** Contract identity and the chain snapshot (src/domain/contract.rs, src/domain/market.rs). */
module Market {
  import opened Common
  import opened Sorting

  /** The bytes of a `rust_decimal::Decimal`: flags (sign and scale) and a 96-bit mantissa. */
  datatype Decimal = Decimal(flags: u32, lo: u32, mid: u32, hi: u32)

  /** The finest fraction a decimal resolves: its scale is at most 28. */
  const UNIT_SCALE := 10_000_000_000_000_000_000_000_000_000

  /** An absolute instant, or a non-negative decimal number of days, counted in units of 10^-28 day. */
  datatype Expiration = Days(units: nat) | DateTime(ns: int)

  /** The grammar `^[A-Z0-9._]{1,32}$`. */
  predicate ValidTicker(s: string)
  {
    1 <= |s| <= 32 && forall c | c in s :: TickerChar(c)
  }

  predicate TickerChar(c: char)
  {
    'A' <= c <= 'Z' || '0' <= c <= '9' || c == '.' || c == '_'
  }

  /** `Underlying::new`. */
  function NewUnderlying(s: string): Result<string, Error>
  {
    if ValidTicker(s) then Ok(s) else Err(Conversion)
  }

  datatype ContractKey = ContractKey(underlying: string, expiration: Expiration, strike: u64, style: Style)

  /** A resolved key of a ticker: the only keys a snapshot holds. */
  predicate Resolved(k: ContractKey)
  {
    ValidTicker(k.underlying) && k.expiration.DateTime? && FitsI64(k.expiration.ns)
  }

  function CharKey(s: string): (r: Key)
    ensures |r| == |s| && forall i | 0 <= i < |s| :: r[i] == s[i] as int
  {
    seq(|s|, i requires 0 <= i < |s| => s[i] as int)
  }

  function StyleRank(s: Style): int { if s.Call? then 0 else 1 }

  /**
   The `Ord` of `ContractKey` as one integer sequence: the ticker bytes closed by
   a mark below every byte, the kind of expiry and its value, the strike, the
   style.
   */
  function OrderKey(k: ContractKey): Key
  {
    CharKey(k.underlying) + [-1] + Tail(k)
  }

  function Tail(k: ContractKey): Key
  {
    match k.expiration
    case Days(units) => [0, units, k.strike, StyleRank(k.style)]
    case DateTime(ns) => [1, ns, k.strike, StyleRank(k.style)]
  }

  /** `expiration_exact_cmp`: relative before absolute, and within a kind by value. */
  predicate ExpirationLess(a: Expiration, b: Expiration)
  {
    match (a, b)
    case (Days(x), Days(y)) => x < y
    case (DateTime(x), DateTime(y)) => x < y
    case (Days(_), DateTime(_)) => true
    case (DateTime(_), Days(_)) => false
  }

  /** Ticker first, then expiry, strike and style: the comparison chain of `Ord::cmp`. */
  predicate FieldLess(a: ContractKey, b: ContractKey)
  {
    || Less(CharKey(a.underlying), CharKey(b.underlying))
    || (a.underlying == b.underlying &&
        (|| ExpirationLess(a.expiration, b.expiration)
         || (a.expiration == b.expiration &&
             (|| a.strike < b.strike
              || (a.strike == b.strike && StyleRank(a.style) < StyleRank(b.style))))))
  }

  lemma CharKeyInjective(s: string, t: string)
    ensures CharKey(s) == CharKey(t) ==> s == t
  {
    if CharKey(s) == CharKey(t) {
      forall i | 0 <= i < |s| ensures s[i] == t[i] {
        assert CharKey(s)[i] == CharKey(t)[i];
      }
    }
  }

  /** Closing each word with a mark below its letters keeps the order of the words. */
  lemma {:induction false} MarkedOrder(a: Key, x: Key, b: Key, y: Key)
    requires (forall i | 0 <= i < |a| :: a[i] >= 0) && (forall i | 0 <= i < |b| :: b[i] >= 0)
    ensures Less(a + [-1] + x, b + [-1] + y) <==> Less(a, b) || (a == b && Less(x, y))
  {
    if a == [] {
      assert a + [-1] + x == [-1] + x;
      if b == [] {
        assert b + [-1] + y == [-1] + y;
      }
    } else {
      assert (a + [-1] + x)[1..] == a[1..] + [-1] + x;
      if b == [] {
        assert b + [-1] + y == [-1] + y;
      } else {
        assert (b + [-1] + y)[1..] == b[1..] + [-1] + y;
        assert a == [a[0]] + a[1..] && b == [b[0]] + b[1..];
        MarkedOrder(a[1..], x, b[1..], y);
      }
    }
  }

  /** The order of sequences of four, unfolded. */
  lemma LessFour(a: Key, b: Key)
    requires |a| == |b| == 4
    ensures Less(a, b) <==>
            || a[0] < b[0]
            || (a[0] == b[0] && (|| a[1] < b[1]
                                 || (a[1] == b[1] && (a[2] < b[2] || (a[2] == b[2] && a[3] < b[3])))))
  {
    assert a[1..][1..] == a[2..] && b[1..][1..] == b[2..] && a[2..][1..] == a[3..] && b[2..][1..] == b[3..];
    assert a[3..][1..] == [] && b[3..][1..] == [];
    assert Less(a[3..], b[3..]) <==> a[3] < b[3];
    assert Less(a[2..], b[2..]) <==> a[2] < b[2] || (a[2] == b[2] && Less(a[3..], b[3..]));
    assert Less(a[1..], b[1..]) <==> a[1] < b[1] || (a[1] == b[1] && Less(a[2..], b[2..]));
  }

  /** The integer sequence orders exactly as the source compares, field by field. */
  lemma OrderKeyIsFieldOrder(a: ContractKey, b: ContractKey)
    ensures Less(OrderKey(a), OrderKey(b)) <==> FieldLess(a, b)
  {
    MarkedOrder(CharKey(a.underlying), Tail(a), CharKey(b.underlying), Tail(b));
    CharKeyInjective(a.underlying, b.underlying);
    LessFour(Tail(a), Tail(b));
  }

  /** Keys that compare equal are equal: the order and the exact equality of the source agree. */
  lemma OrderKeyInjective(a: ContractKey, b: ContractKey)
    ensures OrderKey(a) == OrderKey(b) <==> a == b
  {
    if OrderKey(a) == OrderKey(b) {
      LessTrichotomy(OrderKey(a), OrderKey(b));
      OrderKeyIsFieldOrder(a, b);
      OrderKeyIsFieldOrder(b, a);
      LessTrichotomy(CharKey(a.underlying), CharKey(b.underlying));
      CharKeyInjective(a.underlying, b.underlying);
    }
  }

  datatype QuoteView = QuoteView(
    contract: ContractKey, bid: u64, ask: u64, mid: u64, bidSize: u32, askSize: u32,
    iv: Decimal, delta: Decimal, gamma: Decimal, theta: Decimal, vega: Decimal)

  /** One entry of the `BTreeMap<ContractKey, QuoteView>` a snapshot holds. */
  datatype Entry = Entry(key: ContractKey, view: QuoteView)

  function EntryKey(e: Entry): Key { OrderKey(e.key) }

  /** `quotes` is the map in iteration order, strictly increasing in the key. */
  datatype ChainSnapshot = ChainSnapshot(
    ts: i64, step: u32, underlying: string, underlyingPrice: u64,
    tick: u64, multiplier: u32, quotes: seq<Entry>)
}
