/** The length-prefixed framing the bundle fuzz target feeds the reader (fuzz/src/lib.rs). */
module Framing {
  import opened Common

  const SECTIONS := 5

  /** Byte `i`, zero past the end. */
  function ByteAt(data: Bytes, i: nat): byte
  {
    if i < |data| then data[i] else 0
  }

  /** `u32::from_le_bytes` of the four bytes at `pos`. */
  function LengthAt(data: Bytes, pos: nat): nat
  {
    ByteAt(data, pos) + 0x100 * ByteAt(data, pos + 1)
    + 0x1_0000 * ByteAt(data, pos + 2) + 0x100_0000 * ByteAt(data, pos + 3)
  }

  /** `read_u32_le`: fill a four-byte buffer in place, then combine it. */
  method ReadU32Le(data: Bytes, pos: nat) returns (len: u32)
    ensures len == LengthAt(data, pos)
  {
    var bytes := new byte[4](_ => 0);
    var i := 0;
    while i < 4
      invariant 0 <= i <= 4
      invariant forall k | 0 <= k < i :: bytes[k] == ByteAt(data, pos + k)
    {
      bytes[i] := ByteAt(data, pos + i);
      i := i + 1;
    }
    var b0: int, b1: int, b2: int, b3: int := bytes[0], bytes[1], bytes[2], bytes[3];
    len := b0 + 0x100 * b1 + 0x1_0000 * b2 + 0x100_0000 * b3;
  }

  function Min(a: nat, b: nat): nat { if a < b then a else b }

  /** Where the payload of the section headed at `pos` starts and ends. */
  function PayloadStart(data: Bytes, pos: nat): nat { Min(pos + 4, |data|) }
  function PayloadEnd(data: Bytes, pos: nat): nat { Min(PayloadStart(data, pos) + LengthAt(data, pos), |data|) }

  /** The header position of section `k`. */
  function HeaderAt(data: Bytes, k: nat): nat
  {
    if k == 0 then 0 else PayloadEnd(data, HeaderAt(data, k - 1))
  }

  function Section(data: Bytes, k: nat): Bytes
  {
    var pos := HeaderAt(data, k);
    data[PayloadStart(data, pos)..PayloadEnd(data, pos)]
  }

  /** The total decoder: five slices, whatever the input. */
  method SplitBundleSections(data: Bytes) returns (out: array<Bytes>)
    ensures out.Length == SECTIONS && forall k | 0 <= k < SECTIONS :: out[k] == Section(data, k)
  {
    hide LengthAt;
    out := new Bytes[SECTIONS](_ => []);
    var pos := 0;
    var k := 0;
    while k < SECTIONS
      invariant 0 <= k <= SECTIONS && pos == HeaderAt(data, k)
      invariant forall j | 0 <= j < k :: out[j] == Section(data, j)
    {
      var len := ReadU32Le(data, pos);
      pos := Min(pos + 4, |data|);
      var end := Min(pos + len, |data|);
      out[k] := data[pos..end];
      pos := end;
      k := k + 1;
    }
  }

  function TotalLength(data: Bytes, k: nat): nat
  {
    if k == 0 then 0 else TotalLength(data, k - 1) + |Section(data, k - 1)|
  }

  /** The sections are disjoint slices in input order, so together no longer than the input. */
  lemma {:induction false} SectionsDisjoint(data: Bytes, j: nat, k: nat)
    requires j < k
    ensures PayloadEnd(data, HeaderAt(data, j)) <= HeaderAt(data, k) <= PayloadStart(data, HeaderAt(data, k)) <= |data|
    decreases k
  {
    hide LengthAt, PayloadStart, PayloadEnd;
    SectionsInRange(data, k);
    SectionsInRange(data, k - 1);
    if j < k - 1 {
      SectionsDisjoint(data, j, k - 1);
    }
  }

  lemma {:induction false} SectionsInRange(data: Bytes, k: nat)
    ensures HeaderAt(data, k) <= PayloadStart(data, HeaderAt(data, k)) <= PayloadEnd(data, HeaderAt(data, k)) <= |data|
    ensures TotalLength(data, k) <= HeaderAt(data, k)
  {
    hide LengthAt;
    if k > 0 {
      SectionsInRange(data, k - 1);
    }
  }

  // ---- The inverse encoder ------------------------------------------------

  function LeU32(n: nat): (r: Bytes)
    requires FitsU32(n)
    ensures |r| == 4
  {
    [n % 0x100, (n / 0x100) % 0x100, (n / 0x1_0000) % 0x100, n / 0x100_0000]
  }

  function Frame(sections: seq<Bytes>): Bytes
    requires forall i | 0 <= i < |sections| :: FitsU32(|sections[i]|)
  {
    if sections == [] then [] else LeU32(|sections[0]|) + sections[0] + Frame(sections[1..])
  }

  lemma LengthRoundTrip(n: nat, before: Bytes, after: Bytes)
    requires FitsU32(n)
    ensures LengthAt(before + LeU32(n) + after, |before|) == n
  {
    var data := before + LeU32(n) + after;
    var pos := |before|;
    assert data[pos] == LeU32(n)[0] && data[pos + 1] == LeU32(n)[1];
    assert data[pos + 2] == LeU32(n)[2] && data[pos + 3] == LeU32(n)[3];
    Recombine(n);
  }

  lemma Recombine(n: nat)
    requires FitsU32(n)
    ensures n % 0x100 + 0x100 * ((n / 0x100) % 0x100) + 0x1_0000 * ((n / 0x1_0000) % 0x100) +
            0x100_0000 * (n / 0x100_0000) == n
  {
    assert n / 0x1_0000 == (n / 0x100) / 0x100;
    assert n / 0x100_0000 == (n / 0x1_0000) / 0x100;
  }

  lemma {:induction false} FrameFrom(before: Bytes, sections: seq<Bytes>, data: Bytes, done: nat, k: nat)
    requires forall i | 0 <= i < |sections| :: FitsU32(|sections[i]|)
    requires data == before + Frame(sections) && HeaderAt(data, done) == |before| && k < |sections|
    ensures Section(data, done + k) == sections[k]
    decreases |sections|
  {
    hide LengthAt, LeU32;
    var len, s, rest := LeU32(|sections[0]|), sections[0], Frame(sections[1..]);
    OneFrame(before, s, rest, data);
    if k > 0 {
      var before' := before + len + s;
      assert data == before' + rest;
      FrameFrom(before', sections[1..], data, done + 1, k - 1);
    } else {
      assert HeaderAt(data, done) == |before|;
    }
  }

  lemma OneFrame(before: Bytes, s: Bytes, rest: Bytes, data: Bytes)
    requires FitsU32(|s|) && data == before + (LeU32(|s|) + s + rest)
    ensures PayloadStart(data, |before|) == |before| + 4
    ensures PayloadEnd(data, |before|) == |before| + 4 + |s|
    ensures data[|before| + 4..|before| + 4 + |s|] == s
  {
    hide LengthAt, LeU32;
    assert data == before + LeU32(|s|) + (s + rest);
    LengthRoundTrip(|s|, before, s + rest);
  }

  /** Decoding the frames of any five sections gives the sections back. */
  lemma FramingRoundTrip(sections: seq<Bytes>, k: nat)
    requires |sections| == SECTIONS && k < SECTIONS
    requires forall i | 0 <= i < |sections| :: FitsU32(|sections[i]|)
    ensures Section(Frame(sections), k) == sections[k]
  {
    hide Section, Frame, LengthAt;
    assert [] + Frame(sections) == Frame(sections);
    assert HeaderAt(Frame(sections), 0) == 0;
    FrameFrom([], sections, Frame(sections), 0, k);
  }
}
