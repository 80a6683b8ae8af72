/** Result values and the machine-integer ranges the crate computes in. */
module Common {

  datatype Option<+T> = None | Some(value: T)

  /** A checked operation either yields a value or one typed error. */
  datatype Result<+T, +E> = Ok(value: T) | Err(error: E) {
    predicate IsFailure() {
      Err?
    }

    function PropagateFailure<U>(): Result<U, E>
      requires Err?
    {
      Err(error)
    }

    function Extract(): T
      requires Ok?
    {
      value
    }
  }

  /** A required cell; a missing one is a conversion error. */
  function Require<T>(cell: Option<T>): Result<T, Error>
  {
    if cell.Some? then Ok(cell.value) else Err(Conversion)
  }

  datatype Side = Long | Short
  datatype Style = Call | Put

  type byte = n: int | 0 <= n < 256
  type Bytes = seq<byte>

  /** Two parts of one length, each followed by something, agree part by part. */
  lemma SameSplit<T>(a: seq<T>, x: seq<T>, b: seq<T>, y: seq<T>)
    requires |a| == |b| && a + x == b + y
    ensures a == b && x == y
  {
    assert a == (a + x)[..|a|] && b == (b + y)[..|a|];
    assert x == (a + x)[|a|..] && y == (b + y)[|a|..];
  }

  /** The crate's error kinds, without their message text (src/error.rs). */
  datatype Error =
    | ArithmeticOverflow
    | Conversion
    | DataIo
    | Data(descriptor: string)
    | DataOutOfOrder
    | PriceNotTickAligned
    | CrossedQuote
    | InvalidQuantity
    | TapeTooLarge(limit: Limit)
    | Session
    | Bundle
    | Execution
    | Misconfigured

  /** The ceiling a `TapeTooLarge` error names. */
  datatype Limit =
    | MaxSteps
    | MaxContractsPerSnapshot
    | MaxTotalBytes
    | MaxDecompressedBytes
    | MaxFileBytes
    | MaxStringLen
    | MaxRowsPerTable

  const I32_MAX := 0x7FFF_FFFF
  const I64_MAX := 0x7FFF_FFFF_FFFF_FFFF
  const U32_MAX := 0xFFFF_FFFF
  const U64_MAX := 0xFFFF_FFFF_FFFF_FFFF
  const I128_MAX := 0x7FFF_FFFF_FFFF_FFFF_FFFF_FFFF_FFFF_FFFF

  type i32 = n: int | -I32_MAX - 1 <= n <= I32_MAX
  type i64 = n: int | -I64_MAX - 1 <= n <= I64_MAX
  type u32 = n: int | 0 <= n <= U32_MAX
  type u64 = n: int | 0 <= n <= U64_MAX

  predicate FitsI64(n: int) { -I64_MAX - 1 <= n <= I64_MAX }
  predicate FitsU32(n: int) { 0 <= n <= U32_MAX }
  predicate FitsU64(n: int) { 0 <= n <= U64_MAX }
  predicate FitsI128(n: int) { -I128_MAX - 1 <= n <= I128_MAX }

  /** The hostile-input ceilings (src/config.rs); the struct sizes of the byte estimate are the compiler's. */
  datatype Limits = Limits(
    maxSteps: u64, maxContractsPerSnapshot: u32, maxTotalBytes: u64, maxDecompressedBytes: u64,
    maxFileBytes: u64, maxStringLen: u32, maxRowsPerTable: u64,
    quoteSize: u64, snapshotSize: u64)

  // ---- Remainders by a variable divisor -----------------------------------

  /** The remainder of a division, `value % divisor`, by repeated subtraction. */
  function Remainder(value: nat, divisor: nat): nat
    requires divisor > 0
  {
    if value < divisor then value else Remainder(value - divisor, divisor)
  }

  lemma {:induction false} Divided(value: nat, divisor: nat) returns (quotient: nat)
    requires divisor > 0
    ensures Remainder(value, divisor) < divisor && value == quotient * divisor + Remainder(value, divisor)
    decreases value
  {
    if value < divisor {
      quotient := 0;
    } else {
      var q := Divided(value - divisor, divisor);
      quotient := q + 1;
    }
  }

  lemma RemainderIsModulo(value: nat, divisor: nat)
    requires divisor > 0
    ensures Remainder(value, divisor) == value % divisor
  {
    hide Remainder;
    var q := Divided(value, divisor);
    assert value == value / divisor * divisor + value % divisor;
    QuotientUnique(q, Remainder(value, divisor), value / divisor, value % divisor, divisor);
  }

  lemma QuotientUnique(w: nat, i: nat, q: nat, r: nat, size: nat)
    requires i < size && r < size && w * size + i == q * size + r
    ensures q == w && r == i
  {
    if q < w {
      Multiples(q, w, size);
    } else if w < q {
      Multiples(w, q, size);
    }
  }

  lemma {:induction false} Multiples(a: nat, b: nat, size: nat)
    requires a < b
    ensures a * size + size <= b * size
  {
    assert b * size == (b - 1) * size + size;
    if a < b - 1 {
      Multiples(a, b - 1, size);
    }
  }
}
