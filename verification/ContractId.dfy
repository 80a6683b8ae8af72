/** The canonical contract identifier: printer, parser, and the two read-back checks. */
module ContractId {
  import opened Common
  import opened Market

  // ---- Decimal numerals ---------------------------------------------------

  predicate IsDigit(c: char) { '0' <= c <= '9' }

  function DigitChar(d: nat): char
    requires d < 10
  {
    ('0' as int + d) as char
  }

  /** The shortest decimal numeral of `n`. */
  function Digits(n: nat): (s: string)
    ensures s != [] && forall c | c in s :: IsDigit(c)
  {
    if n < 10 then [DigitChar(n)] else Digits(n / 10) + [DigitChar(n % 10)]
  }

  function PrintInt(n: int): string
  {
    if n < 0 then "-" + Digits(-n) else Digits(n)
  }

  predicate AllDigits(s: string)
  {
    s != [] && forall i | 0 <= i < |s| :: IsDigit(s[i])
  }

  function ValueOf(s: string): nat
    requires forall i | 0 <= i < |s| :: IsDigit(s[i])
  {
    if s == [] then 0
    else ValueOf(s[..|s| - 1]) * 10 + DigitValue(s[|s| - 1])
  }

  function DigitValue(c: char): nat
    requires IsDigit(c)
  {
    c as int - '0' as int
  }

  /** `str::parse::<u64>`: an optional plus sign, then at least one digit, in range. */
  function ParseU64(s: string): Option<u64>
  {
    var body := if s != [] && s[0] == '+' then s[1..] else s;
    if AllDigits(body) && FitsU64(ValueOf(body)) then Some(ValueOf(body)) else None
  }

  /** `str::parse::<i64>`: an optional sign, then at least one digit, in range. */
  function ParseI64(s: string): Option<i64>
  {
    var signed := s != [] && (s[0] == '+' || s[0] == '-');
    var body := if signed then s[1..] else s;
    if !AllDigits(body) then None
    else
      var magnitude: int := ValueOf(body);
      var v := if signed && s[0] == '-' then -magnitude else magnitude;
      if FitsI64(v) then Some(v) else None
  }

  lemma {:induction false} ValueOfDigits(n: nat)
    ensures AllDigits(Digits(n)) && ValueOf(Digits(n)) == n
    ensures Digits(n)[0] != '+' && Digits(n)[0] != '-'
    ensures Digits(n)[0] == '0' ==> n == 0
  {
    var s := Digits(n);
    assert forall i | 0 <= i < |s| :: s[i] in s;
    if n >= 10 {
      ValueOfDigits(n / 10);
      assert s[..|s| - 1] == Digits(n / 10);
    }
  }

  lemma ParsePrintedU64(n: u64)
    ensures ParseU64(Digits(n)) == Some(n)
  {
    ValueOfDigits(n);
  }

  lemma ParsePrintedI64(n: i64)
    ensures ParseI64(PrintInt(n)) == Some(n)
  {
    hide Digits, ValueOf;
    var m: int := n;
    if m < 0 {
      ValueOfDigits(-m);
      assert PrintInt(m)[1..] == Digits(-m);
    } else {
      ValueOfDigits(n);
    }
  }

  // ---- Segments -----------------------------------------------------------

  /** `str::split(':')`. */
  function Split(s: string): (r: seq<string>)
    ensures r != []
  {
    if s == [] then [""]
    else if s[0] == ':' then [""] + Split(s[1..])
    else
      var r := Split(s[1..]);
      [[s[0]] + r[0]] + r[1..]
  }

  predicate ColonFree(s: string) { ':' !in s }

  lemma {:induction false} SplitSegment(a: string, rest: string)
    requires ColonFree(a)
    ensures Split(a + ":" + rest) == [a] + Split(rest)
  {
    var t := a + ":" + rest;
    if a == [] {
      assert t[1..] == rest;
    } else {
      assert t[0] == a[0] && t[1..] == a[1..] + ":" + rest;
      SplitSegment(a[1..], rest);
      assert a == [a[0]] + a[1..];
    }
  }

  lemma {:induction false} SplitLast(a: string)
    requires ColonFree(a)
    ensures Split(a) == [a]
  {
    if a != [] {
      SplitLast(a[1..]);
      assert a == [a[0]] + a[1..];
    }
  }

  function JoinFive(a: string, b: string, c: string, d: string, e: string): string
  {
    a + ":" + (b + ":" + (c + ":" + (d + ":" + e)))
  }

  lemma SplitJoin(a: string, b: string, c: string, d: string, e: string)
    requires ColonFree(a) && ColonFree(b) && ColonFree(c) && ColonFree(d) && ColonFree(e)
    ensures Split(JoinFive(a, b, c, d, e)) == [a, b, c, d, e]
  {
    SplitSegment(a, b + ":" + (c + ":" + (d + ":" + e)));
    SplitSegment(b, c + ":" + (d + ":" + e));
    SplitSegment(c, d + ":" + e);
    SplitSegment(d, e);
    SplitLast(e);
  }

  // ---- ContractKey::to_contract_id / from_contract_id ---------------------

  const VERSION := "v1"

  function StyleCode(s: Style): string { if s.Call? then "C" else "P" }

  function ExpirationNs(k: ContractKey): Result<i64, Error>
  {
    match k.expiration
    case DateTime(ns) => if FitsI64(ns) then Ok(ns) else Err(Conversion)
    case Days(_) => Err(Conversion)
  }

  function ToContractId(k: ContractKey): Result<string, Error>
  {
    var ns :- ExpirationNs(k);
    Ok(JoinFive(VERSION, k.underlying, PrintInt(ns), Digits(k.strike), StyleCode(k.style)))
  }

  function ParseStyleCode(s: string): Option<Style>
  {
    if s == "C" then Some(Call) else if s == "P" then Some(Put) else None
  }

  function FromContractId(id: string): Result<ContractKey, Error>
  {
    var segments := Split(id);
    if |segments| != 5 || segments[0] != VERSION then Err(Conversion)
    else
      var underlying :- NewUnderlying(segments[1]);
      match (ParseI64(segments[2]), ParseU64(segments[3]), ParseStyleCode(segments[4]))
      case (Some(ns), Some(strike), Some(style)) => Ok(ContractKey(underlying, DateTime(ns), strike, style))
      case _ => Err(Conversion)
  }

  lemma PrintedColonFree(k: ContractKey)
    requires Resolved(k)
    ensures ColonFree(VERSION) && ColonFree(k.underlying) && ColonFree(PrintInt(k.expiration.ns))
    ensures ColonFree(Digits(k.strike)) && ColonFree(StyleCode(k.style))
  {
    assert forall c | c in k.underlying :: TickerChar(c);
  }

  /** Parsing inverts printing on every resolved key. */
  lemma PrintThenParse(k: ContractKey)
    requires Resolved(k)
    ensures ToContractId(k).Ok? && FromContractId(ToContractId(k).value) == Ok(k)
  {
    hide Split, JoinFive, ParseI64, ParseU64, PrintInt, Digits;
    PrintedColonFree(k);
    SplitJoin(VERSION, k.underlying, PrintInt(k.expiration.ns), Digits(k.strike), StyleCode(k.style));
    ParsePrintedI64(k.expiration.ns);
    ParsePrintedU64(k.strike);
  }

  /** Two contracts never share an identifier. */
  lemma IdInjective(a: ContractKey, b: ContractKey)
    requires Resolved(a) && Resolved(b)
    requires ToContractId(a) == ToContractId(b)
    ensures a == b
  {
    PrintThenParse(a);
    PrintThenParse(b);
  }

  lemma ParsedIsResolved(id: string)
    requires FromContractId(id).Ok?
    ensures Resolved(FromContractId(id).value)
  {
  }

  // ---- The identifier, written out ----------------------------------------

  function Pow10(width: nat): nat
  {
    if width == 0 then 1 else 10 * Pow10(width - 1)
  }

  /** The number a decimal numeral stands for: every digit times the power of ten of its place. */
  function DecimalOf(s: string): int
    requires forall i | 0 <= i < |s| :: IsDigit(s[i])
  {
    if s == [] then 0 else (s[0] as int - '0' as int) * Pow10(|s| - 1) + DecimalOf(s[1..])
  }

  lemma {:induction false} DecimalSnoc(s: string, c: char)
    requires (forall i | 0 <= i < |s| :: IsDigit(s[i])) && IsDigit(c)
    ensures DecimalOf(s + [c]) == 10 * DecimalOf(s) + (c as int - '0' as int)
  {
    if s == [] {
      assert [c][1..] == [] && Pow10(0) == 1;
    } else {
      var d := s[0] as int - '0' as int;
      assert (s + [c])[1..] == s[1..] + [c];
      DecimalSnoc(s[1..], c);
      assert Pow10(|s|) == 10 * Pow10(|s| - 1);
      assert d * Pow10(|s|) == 10 * (d * Pow10(|s| - 1));
    }
  }

  lemma {:induction false} DigitsDecimal(n: nat)
    ensures (forall i | 0 <= i < |Digits(n)| :: IsDigit(Digits(n)[i])) && DecimalOf(Digits(n)) == n
    ensures |Digits(n)| > 1 ==> Digits(n)[0] != '0'
  {
    assert forall i | 0 <= i < |Digits(n)| :: Digits(n)[i] in Digits(n);
    if n < 10 {
      assert DecimalOf([DigitChar(n)]) == DecimalOf([] + [DigitChar(n)]);
      DecimalSnoc([], DigitChar(n));
    } else {
      DigitsDecimal(n / 10);
      DecimalSnoc(Digits(n / 10), DigitChar(n % 10));
    }
  }

  /** The shortest numeral of a number, behind a minus sign if it is negative. */
  predicate Numeral(s: string, n: int)
  {
    var body := if n < 0 && s != [] && s[0] == '-' then s[1..] else s;
    && (n < 0 ==> s != [] && s[0] == '-')
    && body != [] && (forall i | 0 <= i < |body| :: IsDigit(body[i])) && (|body| > 1 ==> body[0] != '0')
    && DecimalOf(body) == (if n < 0 then -n else n)
  }

  lemma PrintIntNumeral(n: int)
    ensures Numeral(PrintInt(n), n)
  {
    hide Digits, DecimalOf;
    if n < 0 {
      DigitsDecimal(-n);
      assert PrintInt(n)[1..] == Digits(-n);
    } else {
      DigitsDecimal(n);
    }
  }

  /**
   What is printed: version, ticker, the nanoseconds of the expiry and the cents
   of the strike as decimal numerals, and C for a call or P for a put.
   */
  lemma IdSpelled(k: ContractKey) returns (ns: string, strike: string)
    requires k.expiration.DateTime? && FitsI64(k.expiration.ns)
    ensures Numeral(ns, k.expiration.ns) && Numeral(strike, k.strike)
    ensures ToContractId(k) ==
            Ok("v1:" + k.underlying + ":" + ns + ":" + strike + ":" + (if k.style.Call? then "C" else "P"))
  {
    hide PrintInt, Digits, Numeral;
    ns, strike := PrintInt(k.expiration.ns), PrintInt(k.strike);
    PrintIntNumeral(k.expiration.ns);
    PrintIntNumeral(k.strike);
    StrikePrinted(k.strike);
    var u, c := k.underlying, if k.style.Call? then "C" else "P";
    assert VERSION + ":" == "v1:";
    assert "v1:" + (u + ":" + (ns + ":" + (strike + ":" + c))) == "v1:" + u + ":" + ns + ":" + strike + ":" + c;
    assert VERSION + ":" + (u + ":" + (ns + ":" + (strike + ":" + c))) ==
           "v1:" + (u + ":" + (ns + ":" + (strike + ":" + c)));
  }

  lemma StrikePrinted(n: nat)
    ensures PrintInt(n) == Digits(n)
  {
  }

  // ---- The read-back checks -----------------------------------------------

  /** `verify_position_contract_id`. */
  function VerifyPositionId(id: string): Result<(), Error>
  {
    if FromContractId(id).Err? then Err(Bundle)
    else
      var rebuilt := ToContractId(FromContractId(id).value);
      if rebuilt.Err? || rebuilt.value != id then Err(Bundle) else Ok(())
  }

  /** The columns of a fill row its identifier is checked against. */
  datatype FillIdentity = FillIdentity(
    contractId: string, underlying: string, expirationNs: i64, strikeCents: u64, style: string)

  function StyleStr(s: Style): string { if s.Call? then "call" else "put" }

  /** `verify_fill_contract_id`. */
  function VerifyFillId(row: FillIdentity): Result<(), Error>
  {
    if FromContractId(row.contractId).Err? then Err(Bundle)
    else
      var key := FromContractId(row.contractId).value;
      var ns := ExpirationNs(key);
      if ns.Err? then Err(Bundle)
      else if key.underlying != row.underlying || ns.value != row.expirationNs ||
              key.strike != row.strikeCents || StyleStr(key.style) != row.style then Err(Bundle)
      else
        var rebuilt := ToContractId(key);
        if rebuilt.Err? || rebuilt.value != row.contractId then Err(Bundle) else Ok(())
  }

  /** The position check accepts exactly the printer's image. */
  lemma PositionIdAccepted(id: string)
    ensures VerifyPositionId(id).Ok? <==> exists k :: Resolved(k) && ToContractId(k) == Ok(id)
  {
    if VerifyPositionId(id).Ok? {
      ParsedIsResolved(id);
      assert ToContractId(FromContractId(id).value) == Ok(id);
    }
    if k :| Resolved(k) && ToContractId(k) == Ok(id) {
      PrintThenParse(k);
    }
  }

  // ---- The grammar of an identifier ----------------------------------------

  /** A decimal numeral without a needless leading zero. */
  predicate Canonical(s: string)
  {
    AllDigits(s) && (|s| > 1 ==> s[0] != '0')
  }

  predicate CanonicalU64(s: string)
  {
    Canonical(s) && FitsU64(ValueOf(s))
  }

  /** An optional minus sign, but not in front of zero, and never a plus. */
  predicate CanonicalI64(s: string)
  {
    if s != [] && s[0] == '-' then Canonical(s[1..]) && 0 < ValueOf(s[1..]) <= I64_MAX + 1
    else Canonical(s) && ValueOf(s) <= I64_MAX
  }

  /** `v1`, a ticker, an instant, a strike and a style letter between four colons, every numeral in its one spelling. */
  predicate IdGrammar(id: string)
  {
    var s := Split(id);
    && |s| == 5 && s[0] == VERSION && ValidTicker(s[1]) && CanonicalI64(s[2]) && CanonicalU64(s[3])
    && (s[4] == "C" || s[4] == "P")
  }

  /** A canonical numeral is the numeral of its value. */
  lemma {:induction false} DigitsOfValue(s: string)
    requires Canonical(s)
    ensures Digits(ValueOf(s)) == s
    ensures ValueOf(s) == 0 ==> s == "0"
  {
    var init, last := s[..|s| - 1], s[|s| - 1];
    assert ValueOf(s) == ValueOf(init) * 10 + DigitValue(last);
    assert DigitChar(DigitValue(last)) == last;
    if |s| == 1 {
      assert ValueOf(init) == 0 && s == [last];
    } else {
      assert init[0] == s[0];
      DigitsOfValue(init);
      assert s == init + [last];
    }
  }

  /** What the printer writes is canonical. */
  lemma {:induction false} DigitsCanonical(n: nat)
    ensures Canonical(Digits(n)) && ValueOf(Digits(n)) == n
  {
    ValueOfDigits(n);
    if n >= 10 {
      DigitsCanonical(n / 10);
      ValueOfDigits(n / 10);
      assert Digits(n)[0] == Digits(n / 10)[0];
    }
  }

  lemma PrintedI64Canonical(n: i64)
    ensures CanonicalI64(PrintInt(n))
  {
    var m: int := n;
    if m < 0 {
      DigitsCanonical(-m);
      assert PrintInt(n)[1..] == Digits(-m);
    } else {
      DigitsCanonical(m);
      ValueOfDigits(m);
    }
  }

  lemma CanonicalI64Prints(s: string)
    requires CanonicalI64(s)
    ensures ParseI64(s).Some? && PrintInt(ParseI64(s).value) == s
  {
    if s[0] == '-' {
      DigitsOfValue(s[1..]);
      assert s == "-" + s[1..];
    } else {
      DigitsOfValue(s);
    }
  }

  lemma CanonicalU64Prints(s: string)
    requires CanonicalU64(s)
    ensures ParseU64(s).Some? && Digits(ParseU64(s).value) == s
  {
    DigitsOfValue(s);
  }

  function JoinAll(parts: seq<string>): string
    requires parts != []
  {
    if |parts| == 1 then parts[0] else parts[0] + ":" + JoinAll(parts[1..])
  }

  lemma {:induction false} JoinSplit(s: string)
    ensures JoinAll(Split(s)) == s
  {
    if s != [] {
      JoinSplit(s[1..]);
      var r := Split(s[1..]);
      if s[0] == ':' {
        assert Split(s)[1..] == r;
      } else {
        assert Split(s)[1..] == r[1..] && Split(s)[0] == [s[0]] + r[0];
      }
    }
  }

  lemma JoinFiveAll(p: seq<string>)
    requires |p| == 5
    ensures JoinAll(p) == JoinFive(p[0], p[1], p[2], p[3], p[4])
  {
    assert p[1..][1..] == p[2..] && p[2..][1..] == p[3..] && p[3..][1..] == p[4..];
    assert JoinAll(p[4..]) == p[4] && JoinAll(p[3..]) == p[3] + ":" + p[4];
    assert JoinAll(p[2..]) == p[2] + ":" + JoinAll(p[3..]) && JoinAll(p[1..]) == p[1] + ":" + JoinAll(p[2..]);
  }

  /** The position check accepts exactly the strings of the grammar. */
  lemma PositionIdGrammar(id: string)
    ensures VerifyPositionId(id).Ok? <==> IdGrammar(id)
  {
    hide VerifyPositionId, FromContractId, Split, CanonicalI64, CanonicalU64, Digits, PrintInt;
    PositionIdAccepted(id);
    if VerifyPositionId(id).Ok? {
      var k :| Resolved(k) && ToContractId(k) == Ok(id);
      PrintedIsGrammatical(k);
    }
    if IdGrammar(id) {
      var k := GrammaticalPrints(id);
    }
  }

  lemma PrintedIsGrammatical(k: ContractKey)
    requires Resolved(k)
    ensures IdGrammar(ToContractId(k).value)
  {
    hide Split, Digits, PrintInt, CanonicalI64;
    PrintedColonFree(k);
    SplitJoin(VERSION, k.underlying, PrintInt(k.expiration.ns), Digits(k.strike), StyleCode(k.style));
    PrintedI64Canonical(k.expiration.ns);
    DigitsCanonical(k.strike);
  }

  lemma GrammaticalPrints(id: string) returns (k: ContractKey)
    requires IdGrammar(id)
    ensures Resolved(k) && ToContractId(k) == Ok(id)
  {
    hide Split, Digits, PrintInt, CanonicalI64, CanonicalU64, ParseI64, ParseU64;
    var s := Split(id);
    CanonicalI64Prints(s[2]);
    CanonicalU64Prints(s[3]);
    k := ContractKey(s[1], DateTime(ParseI64(s[2]).value), ParseU64(s[3]).value, if s[4] == "C" then Call else Put);
    JoinSplit(id);
    JoinFiveAll(s);
  }

  /** The fill check accepts exactly the identifier its own columns print. */
  lemma FillIdAccepted(row: FillIdentity)
    ensures VerifyFillId(row).Ok? <==>
            && ValidTicker(row.underlying)
            && (row.style == "call" || row.style == "put")
            && Ok(row.contractId) == ToContractId(
                 ContractKey(row.underlying, DateTime(row.expirationNs), row.strikeCents,
                             if row.style == "call" then Call else Put))
  {
    var k := ContractKey(row.underlying, DateTime(row.expirationNs), row.strikeCents,
                         if row.style == "call" then Call else Put);
    if ValidTicker(row.underlying) && ToContractId(k) == Ok(row.contractId) {
      PrintThenParse(k);
    }
    if VerifyFillId(row).Ok? {
      ParsedIsResolved(row.contractId);
      assert FromContractId(row.contractId).value == k;
    }
  }

  /**
   The parser alone is laxer than the printer: a leading zero on the strike, or
   a plus sign, parses to the same key. Only the canonical check tells them apart.
   */
  lemma NonCanonicalRejected(k: ContractKey, prefix: string)
    requires Resolved(k) && (prefix == "0" || prefix == "+")
    ensures var id := JoinFive(VERSION, k.underlying, PrintInt(k.expiration.ns),
                               prefix + Digits(k.strike), StyleCode(k.style));
            FromContractId(id) == Ok(k) && VerifyPositionId(id).Err?
  {
    hide Split, JoinFive, ParseI64, ParseU64, PrintInt, Digits;
    var strike := prefix + Digits(k.strike);
    PrintedColonFree(k);
    SplitJoin(VERSION, k.underlying, PrintInt(k.expiration.ns), strike, StyleCode(k.style));
    SplitJoin(VERSION, k.underlying, PrintInt(k.expiration.ns), Digits(k.strike), StyleCode(k.style));
    ParsePrintedI64(k.expiration.ns);
    PaddedParses(k.strike, prefix);
    assert |strike| == |Digits(k.strike)| + 1;
  }

  lemma PaddedParses(n: u64, prefix: string)
    requires prefix == "0" || prefix == "+"
    ensures ParseU64(prefix + Digits(n)) == Some(n)
  {
    ValueOfDigits(n);
    hide Digits, ValueOf;
    var s := prefix + Digits(n);
    if prefix == "+" {
      assert s[1..] == Digits(n);
    } else {
      ValueOfPadded(Digits(n));
    }
  }

  lemma {:induction false} ValueOfPadded(s: string)
    requires forall i | 0 <= i < |s| :: IsDigit(s[i])
    ensures forall i | 0 <= i < |"0" + s| :: IsDigit(("0" + s)[i])
    ensures ValueOf("0" + s) == ValueOf(s)
  {
    var t := "0" + s;
    if s == [] {
      assert t[..|t| - 1] == [];
    } else {
      assert t[..|t| - 1] == "0" + s[..|s| - 1];
      ValueOfPadded(s[..|s| - 1]);
    }
  }

  /** Negative zero parses, and is refused because zero prints without a sign. */
  lemma NegativeZeroRejected(k: ContractKey)
    requires Resolved(k) && k.expiration.ns == 0
    ensures var id := JoinFive(VERSION, k.underlying, "-0", Digits(k.strike), StyleCode(k.style));
            FromContractId(id) == Ok(k) && VerifyPositionId(id).Err?
  {
    PrintedColonFree(k);
    SplitJoin(VERSION, k.underlying, "-0", Digits(k.strike), StyleCode(k.style));
    SplitJoin(VERSION, k.underlying, PrintInt(0), Digits(k.strike), StyleCode(k.style));
    ParsePrintedU64(k.strike);
    var s := "-0";
    assert s[1..] == "0";
    assert "0"[..0] == "";
    assert ParseI64(s) == Some(0);
    assert PrintInt(0) == "0";
  }
}
