/**
  The wire as a sequence of bits, most significant bit first, and the primitive
  reads and writes every payload codec is built from.

  A writer is a function from the bits written so far to the longer bits after
  it; a reader looks at position `p` of the whole input and returns the value and
  the position after it. "Write x, then read it back" is stated with a prefix:
  if the writer's output is a prefix of the input `d`, the reader started where
  the writer started returns x and stops where the writer stopped.
*/
module Bits {
  import opened Core

  type BitSeq = seq<bool>

  // ---------------------------------------------------------------- numbers

  function Pow2(n: nat): (r: nat)
    ensures r >= 1
  {
    if n == 0 then 1 else 2 * Pow2(n - 1)
  }

  lemma {:induction false} Pow2Monotone(m: nat, n: nat)
    requires m <= n
    ensures Pow2(m) <= Pow2(n)
    decreases n
  {
    if m < n {
      Pow2Monotone(m, n - 1);
    }
  }

  lemma PowersOfTwo()
    ensures Pow2(1) == 2 && Pow2(3) == 8 && Pow2(4) == 16 && Pow2(5) == 32 && Pow2(6) == 64 && Pow2(7) == 128
    ensures Pow2(8) == 0x100 && Pow2(15) == 0x8000 && Pow2(16) == 0x1_0000
    ensures Pow2(32) == U32_LIMIT && Pow2(64) == U64_LIMIT
  {
    assert Pow2(8) == 0x100;
    assert Pow2(12) == 0x1000;
    assert Pow2(16) == 0x1_0000;
    assert Pow2(20) == 0x10_0000;
    assert Pow2(24) == 0x100_0000;
    assert Pow2(28) == 0x1000_0000;
    assert Pow2(32) == U32_LIMIT;
    assert Pow2(36) == 0x10_0000_0000;
    assert Pow2(40) == 0x100_0000_0000;
    assert Pow2(44) == 0x1000_0000_0000;
    assert Pow2(48) == 0x1_0000_0000_0000;
    assert Pow2(52) == 0x10_0000_0000_0000;
    assert Pow2(56) == 0x100_0000_0000_0000;
    assert Pow2(60) == 0x1000_0000_0000_0000;
  }

  lemma SubSlice(d: BitSeq, p: nat, q: nat, a: nat, b: nat)
    requires p <= q <= |d| && a <= b <= q - p
    ensures d[p..q][a..b] == d[p + a..p + b]
  {
    var l, r := d[p..q][a..b], d[p + a..p + b];
    assert |l| == |r|;
    assert forall i | 0 <= i < |l| :: l[i] == d[p + a + i] == r[i];
  }

  lemma SliceJoin(d: BitSeq, a: nat, b: nat, c: nat)
    requires a <= b <= c <= |d|
    ensures d[a..c] == d[a..b] + d[b..c]
  {
  }

  /** A prefix agrees with the whole on every slice inside it. */
  lemma PrefixSlice(w: BitSeq, d: BitSeq, a: nat, b: nat)
    requires w <= d && a <= b <= |w|
    ensures d[a..b] == w[a..b]
  {
  }

  function BitsOf(v: nat, n: nat): (b: BitSeq)
    ensures |b| == n
  {
    if n == 0 then [] else BitsOf(v / 2, n - 1) + [v % 2 == 1]
  }

  function Val(b: BitSeq): (v: nat)
    ensures v < Pow2(|b|)
  {
    if b == [] then 0 else 2 * Val(b[..|b| - 1]) + (if b[|b| - 1] then 1 else 0)
  }

  lemma {:induction false} ValOfBits(v: nat, n: nat)
    requires v < Pow2(n)
    ensures Val(BitsOf(v, n)) == v
  {
    if n > 0 {
      ValOfBits(v / 2, n - 1);
      assert BitsOf(v, n)[..n - 1] == BitsOf(v / 2, n - 1);
    }
  }

  lemma {:induction false} BitsOfVal(b: BitSeq)
    ensures BitsOf(Val(b), |b|) == b
  {
    if b != [] {
      BitsOfVal(b[..|b| - 1]);
      assert Val(b) / 2 == Val(b[..|b| - 1]);
      assert b == b[..|b| - 1] + [b[|b| - 1]];
    }
  }

  // ------------------------------------------------------------------ bytes

  /** Whole bytes on from a byte boundary is a byte boundary. */
  lemma WholeBytes(p: int, n: int)
    ensures p % 8 == 0 ==> (p + 8 * n) % 8 == 0
    ensures (p + 8 * n - p) % 8 == 0
  {
  }

  function BytesBits(bytes: seq<u8>): (b: BitSeq)
    ensures |b| == 8 * |bytes|
  {
    if bytes == [] then [] else BytesBits(bytes[..|bytes| - 1]) + BitsOf(bytes[|bytes| - 1], 8)
  }

  function ByteAt(d: BitSeq, p: nat): (x: u8)
    requires p + 8 <= |d|
  {
    PowersOfTwo();
    Val(d[p..p + 8])
  }

  function BytesAt(d: BitSeq, p: nat, len: nat): (bytes: seq<u8>)
    requires p + 8 * len <= |d|
    ensures |bytes| == len
    ensures forall i | 0 <= i < len :: bytes[i] == ByteAt(d, p + 8 * i)
  {
    seq(len, i requires 0 <= i < len => ByteAt(d, p + 8 * i))
  }

  /** The bytes of a whole number of bytes' worth of bits. */
  function Pack(b: BitSeq): (bytes: seq<u8>)
    requires |b| % 8 == 0
    ensures |bytes| == |b| / 8
  {
    BytesAt(b, 0, |b| / 8)
  }

  lemma {:induction false} BytesBitsAt(bytes: seq<u8>, i: nat)
    requires i < |bytes|
    ensures BytesBits(bytes)[8 * i..8 * i + 8] == BitsOf(bytes[i], 8)
    decreases |bytes|
  {
    var front := bytes[..|bytes| - 1];
    assert BytesBits(bytes) == BytesBits(front) + BitsOf(bytes[|bytes| - 1], 8);
    if i < |front| {
      BytesBitsAt(front, i);
      assert BytesBits(bytes)[8 * i..8 * i + 8] == BytesBits(front)[8 * i..8 * i + 8];
    } else {
      assert BytesBits(bytes)[8 * i..8 * i + 8] == BitsOf(bytes[|bytes| - 1], 8);
    }
  }

  lemma ValOfByte(x: u8)
    ensures Val(BitsOf(x, 8)) == x
  {
    PowersOfTwo();
    ValOfBits(x, 8);
  }

  lemma ByteBitsInside(d: BitSeq, p: nat, bytes: seq<u8>, i: nat)
    requires i < |bytes| && p + 8 * |bytes| <= |d|
    requires d[p..p + 8 * |bytes|] == BytesBits(bytes)
    ensures d[p + 8 * i..p + 8 * i + 8] == BitsOf(bytes[i], 8)
  {
    hide BytesBits, BitsOf;
    SubSlice(d, p, p + 8 * |bytes|, 8 * i, 8 * i + 8);
    BytesBitsAt(bytes, i);
  }

  lemma ByteAtOfBits(d: BitSeq, p: nat, bytes: seq<u8>, i: nat)
    requires i < |bytes| && p + 8 * |bytes| <= |d|
    requires d[p..p + 8 * |bytes|] == BytesBits(bytes)
    ensures ByteAt(d, p + 8 * i) == bytes[i]
  {
    ByteBitsInside(d, p, bytes, i);
    ValOfByte(bytes[i]);
  }

  /** Bytes laid down at `p` are the bytes found at `p`. */
  lemma {:induction false} BytesAtOfBits(d: BitSeq, p: nat, bytes: seq<u8>)
    requires p + 8 * |bytes| <= |d|
    requires d[p..p + 8 * |bytes|] == BytesBits(bytes)
    ensures BytesAt(d, p, |bytes|) == bytes
    decreases |bytes|
  {
    hide BitsOf, Val, ByteAt;
    if bytes != [] {
      var n := |bytes| - 1;
      ByteAtOfBits(d, p, bytes, n);
      SubSlice(d, p, p + 8 * |bytes|, 0, 8 * n);
      BytesAtOfBits(d, p, bytes[..n]);
      assert BytesAt(d, p, |bytes|)[..n] == BytesAt(d, p, n);
    }
  }

  lemma BitsOfByteAt(d: BitSeq, q: nat)
    requires q + 8 <= |d|
    ensures BitsOf(ByteAt(d, q), 8) == d[q..q + 8]
  {
    hide BitsOf, Val;
    BitsOfVal(d[q..q + 8]);
  }

  lemma {:induction false} BitsOfBytesAt(d: BitSeq, p: nat, len: nat)
    requires p + 8 * len <= |d|
    ensures BytesBits(BytesAt(d, p, len)) == d[p..p + 8 * len]
  {
    hide ByteAt, BitsOf;
    if len > 0 {
      BitsOfBytesAt(d, p, len - 1);
      var q := p + 8 * (len - 1);
      BitsOfByteAt(d, q);
      assert BytesAt(d, p, len)[..len - 1] == BytesAt(d, p, len - 1);
      SliceJoin(d, p, q, q + 8);
    }
  }

  lemma PackRoundTrip(b: BitSeq)
    requires |b| % 8 == 0
    ensures BytesBits(Pack(b)) == b
  {
    BitsOfBytesAt(b, 0, |b| / 8);
    assert b[0..8 * (|b| / 8)] == b;
  }

  lemma PackOfBytes(bytes: seq<u8>)
    ensures Pack(BytesBits(bytes)) == bytes
  {
    assert BytesBits(bytes)[0..8 * |bytes|] == BytesBits(bytes);
    BytesAtOfBits(BytesBits(bytes), 0, bytes);
  }

  lemma {:induction false} BytesBitsConcat(a: seq<u8>, b: seq<u8>)
    ensures BytesBits(a + b) == BytesBits(a) + BytesBits(b)
    decreases |b|
  {
    hide BitsOf;
    if b == [] {
      assert a + b == a;
    } else {
      BytesBitsConcat(a, b[..|b| - 1]);
      assert (a + b)[..|a + b| - 1] == a + b[..|b| - 1];
      assert BytesBits(a) + (BytesBits(b[..|b| - 1]) + BitsOf(b[|b| - 1], 8))
          == (BytesBits(a) + BytesBits(b[..|b| - 1])) + BitsOf(b[|b| - 1], 8);
    }
  }

  // ------------------------------------------------- primitive writes, reads

  /** `write_unsigned`: the low `n` bits of `v`. */
  function WU(w: BitSeq, v: nat, n: nat): (r: Result<BitSeq>)
    ensures r.Ok? ==> w <= r.value && |r.value| == |w| + n
    ensures r.Ok? <==> n <= 64 && v < Pow2(n)
  {
    if n > 64 then Err(UnsupportedWidth)
    else if v >= Pow2(n) then Err(ValueExceedsWidth)
    else Ok(w + BitsOf(v, n))
  }

  /** `read_unsigned`. */
  function RU(d: BitSeq, p: nat, n: nat): (r: Result<(nat, nat)>)
    ensures r.Ok? ==> r.value.1 == p + n <= |d| && r.value.0 < Pow2(n)
  {
    if n > 64 then Err(UnsupportedWidth)
    else if p + n > |d| then Err(UnexpectedEndOfInput)
    else Ok((Val(d[p..p + n]), p + n))
  }

  function RU8(d: BitSeq, p: nat, n: nat): (r: Result<(u8, nat)>)
    requires n <= 8
    ensures r.Ok? ==> r.value.1 == p + n <= |d| && r.value.0 < Pow2(n)
  {
    var (v, p) :- RU(d, p, n);
    Pow2Monotone(n, 8);
    PowersOfTwo();
    Ok((v, p))
  }

  function RU16(d: BitSeq, p: nat): (r: Result<(u16, nat)>)
    ensures r.Ok? ==> r.value.1 == p + 16 <= |d|
  {
    var (v, p) :- RU(d, p, 16);
    PowersOfTwo();
    Ok((v, p))
  }

  function RU32(d: BitSeq, p: nat, n: nat): (r: Result<(u32, nat)>)
    requires n <= 32
    ensures r.Ok? ==> r.value.1 == p + n <= |d| && r.value.0 < Pow2(n)
  {
    var (v, p) :- RU(d, p, n);
    Pow2Monotone(n, 32);
    PowersOfTwo();
    Ok((v, p))
  }

  /** `write_bool`, which cannot fail. */
  function WBool(w: BitSeq, b: bool): (r: BitSeq)
    ensures w <= r && |r| == |w| + 1
  {
    w + [b]
  }

  /** `read_bool`: a single bit. */
  function RBool(d: BitSeq, p: nat): (r: Result<(bool, nat)>)
    ensures r.Ok? ==> r.value.1 == p + 1 <= |d|
  {
    if p >= |d| then Err(UnexpectedEndOfInput) else Ok((d[p], p + 1))
  }

  /** The low `n` bits of `v` read as two's complement. */
  function SignExtend(raw: nat, n: nat): int
    requires n >= 1
  {
    if raw < Pow2(n - 1) then raw else raw - Pow2(n)
  }

  /** `write_signed`: shifting up and arithmetically back down must not change the value. */
  function WS(w: BitSeq, v: int, n: nat): (r: Result<BitSeq>)
    ensures r.Ok? ==> w <= r.value && |r.value| == |w| + n
  {
    if n == 0 || n > 64 then Err(UnsupportedWidth)
    else if SignExtend(v % Pow2(n), n) != v then Err(ValueExceedsWidth)
    else WU(w, v % Pow2(n), n)
  }

  function RS(d: BitSeq, p: nat, n: nat): (r: Result<(int, nat)>)
    ensures r.Ok? ==> r.value.1 == p + n <= |d|
    ensures r.Ok? ==> n >= 1 && (-1) * (Pow2(n - 1) as int) <= r.value.0 < Pow2(n - 1)
  {
    if n == 0 || n > 64 then Err(UnsupportedWidth)
    else
      var (raw, p) :- RU(d, p, n);
      Ok((SignExtend(raw, n), p))
  }

  /** `write_signed` of an `i16` at sixteen bits, which cannot fail. */
  function WI16(w: BitSeq, v: i16): (r: BitSeq)
    ensures w <= r && |r| == |w| + 16
  {
    I16Fits(w, v);
    WS(w, v, 16).value
  }

  lemma I16Fits(w: BitSeq, v: i16)
    ensures WS(w, v, 16).Ok?
  {
    PowersOfTwo();
  }

  function RI16(d: BitSeq, p: nat): (r: Result<(i16, nat)>)
    ensures r.Ok? ==> r.value.1 == p + 16 <= |d|
  {
    var (v, p) :- RS(d, p, 16);
    PowersOfTwo();
    Ok((v, p))
  }

  function WBytes(w: BitSeq, bytes: seq<u8>): (r: BitSeq)
    ensures w <= r && |r| == |w| + 8 * |bytes|
  {
    w + BytesBits(bytes)
  }

  /** `read_uint8_span`: only at a byte boundary, and bounded before it is taken. */
  function RSpan(d: BitSeq, p: nat, len: nat): (r: Result<(seq<u8>, nat)>)
    ensures r.Ok? ==> r.value.1 == p + 8 * len <= |d| && |r.value.0| == len
  {
    if p % 8 != 0 then Err(NotByteAligned)
    else if p + 8 * len > |d| then Err(UnexpectedEndOfInput)
    else Ok((BytesAt(d, p, len), p + 8 * len))
  }

  /** `bytes_remaining`: whole bytes left; a pending partial byte does not count. */
  function Remaining(d: BitSeq, p: nat): nat {
    if p > |d| then 0 else (|d| - p) / 8
  }

  /** Everything left, as bytes. */
  function RRest(d: BitSeq, p: nat): (r: Result<(seq<u8>, nat)>)
    ensures r.Ok? ==> p <= r.value.1 <= |d| || p > |d|
  {
    RSpan(d, p, Remaining(d, p))
  }

  const MAX_STRING_BYTES := 128

  function WString(w: BitSeq, payload: seq<u8>): (r: Result<BitSeq>)
    ensures r.Ok? ==> w <= r.value && |r.value| == |w| + 8 * (|payload| + 1)
  {
    if |payload| + 1 > MAX_STRING_BYTES then Err(StringTooLong)
    else if 0 in payload then Err(StringHasInteriorNul)
    else Ok(WBytes(w, payload) + BitsOf(0, 8))
  }

  /** `read_string` with `left` bytes still allowed; the terminator is part of the result. */
  function RStringFrom(d: BitSeq, p: nat, left: nat): (r: Result<(seq<u8>, nat)>)
    ensures r.Ok? ==> 0 < |r.value.0| <= left && r.value.1 == p + 8 * |r.value.0| <= |d|
    ensures r.Ok? ==> r.value.0[|r.value.0| - 1] == 0 && 0 !in r.value.0[..|r.value.0| - 1]
    decreases left
  {
    if left == 0 then Err(StringNotTerminated)
    else
      var (byte, p) :- RU8(d, p, 8);
      if byte == 0 then Ok(([byte], p))
      else
        var (rest, p) :- RStringFrom(d, p, left - 1);
        assert ([byte] + rest)[..|rest|] == [byte] + rest[..|rest| - 1];
        Ok(([byte] + rest, p))
  }

  function RString(d: BitSeq, p: nat): (r: Result<(seq<u8>, nat)>)
    ensures r.Ok? ==> 0 < |r.value.0| <= MAX_STRING_BYTES && r.value.1 == p + 8 * |r.value.0| <= |d|
    ensures r.Ok? ==> r.value.0[|r.value.0| - 1] == 0 && 0 !in r.value.0[..|r.value.0| - 1]
  {
    RStringFrom(d, p, MAX_STRING_BYTES)
  }

  // ---------------------------------------------------------------- round trip

  /**
    One step of a "write, then read" proof: the field just written is read back, and the result is
    the writer to continue from.
  */
  lemma StepU(w: BitSeq, v: nat, n: nat, d: BitSeq) returns (w1: BitSeq)
    requires WU(w, v, n).Ok? && WU(w, v, n).value <= d
    ensures w1 == WU(w, v, n).value && RU(d, |w|, n) == Ok((v, |w1|))
  {
    w1 := WU(w, v, n).value;
    ValOfBits(v, n);
    PrefixSlice(w1, d, |w|, |w| + n);
    assert w1[|w|..|w| + n] == BitsOf(v, n);
  }

  lemma StepU8(w: BitSeq, v: u8, n: nat, d: BitSeq) returns (w1: BitSeq)
    requires n <= 8 && WU(w, v, n).Ok? && WU(w, v, n).value <= d
    ensures w1 == WU(w, v, n).value && RU8(d, |w|, n) == Ok((v, |w1|))
  {
    w1 := StepU(w, v, n, d);
  }

  /** A constant byte. */
  lemma StepByte(w: BitSeq, x: u8, d: BitSeq) returns (w1: BitSeq)
    requires w + BitsOf(x, 8) <= d
    ensures w1 == w + BitsOf(x, 8) && RU8(d, |w|, 8) == Ok((x, |w1|))
  {
    w1 := w + BitsOf(x, 8);
    PrefixSlice(w1, d, |w|, |w| + 8);
    assert w1[|w|..|w| + 8] == BitsOf(x, 8);
    ByteReads(d, |w|, x);
  }

  lemma StepU16(w: BitSeq, v: u16, d: BitSeq) returns (w1: BitSeq)
    requires WU(w, v, 16).Ok? && WU(w, v, 16).value <= d
    ensures w1 == WU(w, v, 16).value && RU16(d, |w|) == Ok((v, |w1|))
  {
    w1 := StepU(w, v, 16, d);
  }

  lemma StepU32(w: BitSeq, v: u32, n: nat, d: BitSeq) returns (w1: BitSeq)
    requires n <= 32 && WU(w, v, n).Ok? && WU(w, v, n).value <= d
    ensures w1 == WU(w, v, n).value && RU32(d, |w|, n) == Ok((v, |w1|))
  {
    w1 := StepU(w, v, n, d);
  }

  lemma StepBool(w: BitSeq, b: bool, d: BitSeq) returns (w1: BitSeq)
    requires WBool(w, b) <= d
    ensures w1 == WBool(w, b) && RBool(d, |w|) == Ok((b, |w1|))
  {
    w1 := WBool(w, b);
    assert w1[|w|] == b && d[|w|] == w1[|w|];
  }

  lemma StepS(w: BitSeq, v: int, n: nat, d: BitSeq) returns (w1: BitSeq)
    requires WS(w, v, n).Ok? && WS(w, v, n).value <= d
    ensures w1 == WS(w, v, n).value && RS(d, |w|, n) == Ok((v, |w1|))
  {
    w1 := StepU(w, v % Pow2(n), n, d);
  }

  lemma StepI16(w: BitSeq, v: i16, d: BitSeq) returns (w1: BitSeq)
    requires WI16(w, v) <= d
    ensures w1 == WI16(w, v) && RI16(d, |w|) == Ok((v, |w1|))
  {
    I16Fits(w, v);
    w1 := StepS(w, v, 16, d);
  }

  lemma StepBytes(w: BitSeq, bytes: seq<u8>, d: BitSeq) returns (w1: BitSeq)
    requires WBytes(w, bytes) <= d && |w| % 8 == 0
    ensures w1 == WBytes(w, bytes) && RSpan(d, |w|, |bytes|) == Ok((bytes, |w1|))
  {
    w1 := WBytes(w, bytes);
    PrefixSlice(w1, d, |w|, |w1|);
    BytesAtOfBits(d, |w|, bytes);
  }

  /** A field that takes the rest of the input is read back when nothing follows it. */
  lemma StepRest(w: BitSeq, bytes: seq<u8>) returns (w1: BitSeq)
    requires |w| % 8 == 0
    ensures w1 == WBytes(w, bytes) && RRest(w1, |w|) == Ok((bytes, |w1|))
  {
    w1 := StepBytes(w, bytes, WBytes(w, bytes));
  }

  /** The byte at `p`, when its bits are known. */
  lemma ByteReads(d: BitSeq, p: nat, x: u8)
    requires p + 8 <= |d| && d[p..p + 8] == BitsOf(x, 8)
    ensures RU8(d, p, 8) == Ok((x, p + 8))
  {
    ValOfByte(x);
  }

  lemma ConsBytesBits(byte: u8, rest: seq<u8>)
    ensures BytesBits([byte] + rest) == BitsOf(byte, 8) + BytesBits(rest)
  {
    hide BitsOf;
    assert [byte][..0] == [];
    assert BytesBits([byte]) == BytesBits([]) + BitsOf(byte, 8) == BitsOf(byte, 8);
    BytesBitsConcat([byte], rest);
  }

  lemma SplitByte(d: BitSeq, p: nat, end: nat, first: BitSeq, rest: BitSeq)
    requires p <= end <= |d| && d[p..end] == first + rest && |first| == 8
    ensures p + 8 + |rest| == end && d[p..p + 8] == first && d[p + 8..end] == rest
  {
    hide *;
    assert |d[p..end]| == end - p;
    SubSlice(d, p, end, 0, 8);
    SubSlice(d, p, end, 8, end - p);
    assert (first + rest)[0..8] == first && (first + rest)[8..8 + |rest|] == rest;
  }

  lemma FirstBits(bytes: seq<u8>)
    requires bytes != []
    ensures BytesBits(bytes) == BitsOf(bytes[0], 8) + BytesBits(bytes[1..])
  {
    hide BytesBits, BitsOf;
    assert bytes == [bytes[0]] + bytes[1..];
    ConsBytesBits(bytes[0], bytes[1..]);
  }

  lemma FirstByte(d: BitSeq, p: nat, end: nat, bytes: seq<u8>)
    requires bytes != [] && p <= end <= |d| && d[p..end] == BytesBits(bytes)
    ensures p + 8 <= end && RU8(d, p, 8) == Ok((bytes[0], p + 8)) && d[p + 8..end] == BytesBits(bytes[1..])
  {
    hide *;
    FirstBits(bytes);
    SplitByte(d, p, end, BitsOf(bytes[0], 8), BytesBits(bytes[1..]));
    ByteReads(d, p, bytes[0]);
  }

  /** Bytes up to and with the first zero. */
  predicate Terminated(bytes: seq<u8>) {
    bytes != [] && (if |bytes| == 1 then bytes[0] == 0 else bytes[0] != 0 && Terminated(bytes[1..]))
  }

  lemma {:induction false} PayloadTerminated(payload: seq<u8>)
    requires 0 !in payload
    ensures Terminated(payload + [0])
  {
    if payload != [] {
      assert payload[0] in payload;
      PayloadTerminated(payload[1..]);
      assert (payload + [0])[1..] == payload[1..] + [0];
    }
  }

  lemma {:induction false} StringStep(d: BitSeq, p: nat, left: nat, byte: u8)
    requires left > 0 && RU8(d, p, 8) == Ok((byte, p + 8))
    ensures byte == 0 ==> RStringFrom(d, p, left) == Ok(([byte], p + 8))
    ensures byte != 0 && RStringFrom(d, p + 8, left - 1).Ok? ==>
              var (rest, q) := RStringFrom(d, p + 8, left - 1).value; RStringFrom(d, p, left) == Ok(([byte] + rest, q))
  {
    hide RU8;
  }

  lemma {:induction false} StringReadsBack(d: BitSeq, p: nat, end: nat, bytes: seq<u8>, left: nat)
    requires |bytes| <= left && Terminated(bytes)
    requires p <= end <= |d| && d[p..end] == BytesBits(bytes)
    ensures RStringFrom(d, p, left) == Ok((bytes, end))
    decreases |bytes|
  {
    hide BytesBits, RU8, RStringFrom;
    FirstByte(d, p, end, bytes);
    StringStep(d, p, left, bytes[0]);
    if |bytes| == 1 {
      assert BytesBits(bytes[1..]) == [];
      assert bytes == [bytes[0]];
    } else {
      StringReadsBack(d, p + 8, end, bytes[1..], left - 1);
      assert bytes == [bytes[0]] + bytes[1..];
    }
  }

  lemma StringBits(w: BitSeq, payload: seq<u8>)
    requires WString(w, payload).Ok?
    ensures WString(w, payload).value == w + BytesBits(payload + [0])
  {
    hide BitsOf;
    assert (payload + [0])[..|payload|] == payload;
  }

  lemma StepString(w: BitSeq, payload: seq<u8>, d: BitSeq) returns (w1: BitSeq)
    requires WString(w, payload).Ok? && WString(w, payload).value <= d
    ensures w1 == WString(w, payload).value && RString(d, |w|) == Ok((payload + [0], |w1|))
  {
    hide BytesBits, BitsOf, RStringFrom;
    w1 := WString(w, payload).value;
    StringBits(w, payload);
    PrefixSlice(w1, d, |w|, |w1|);
    PayloadTerminated(payload);
    StringReadsBack(d, |w|, |w1|, payload + [0], MAX_STRING_BYTES);
  }

  // ------------------------------------------------------------- re-encoding

  /**
    `w1` is `w` followed by a re-encoding of `d[p..q]` that is no longer than the original, and is
    the original when it is as long.
  */
  ghost predicate Canon(d: BitSeq, p: nat, q: nat, w: BitSeq, w1: BitSeq) {
    && p <= q <= |d|
    && w <= w1
    && |w1| - |w| <= q - p
    && (|w1| - |w| == q - p ==> w1[|w|..] == d[p..q])
  }

  /** What took `n` bits is written again in `n1`: never more, and as many exactly when it was minimal. */
  ghost predicate Tight(n: int, n1: int, minimal: bool) {
    n1 <= n && (n1 == n <==> minimal)
  }

  /** Where a reader stopped. */
  function End<T>(r: Result<(T, nat)>): nat {
    if r.Ok? then r.value.1 else 0
  }

  lemma CanonJoin(d: BitSeq, p: nat, q: nat, r: nat, w: BitSeq, w1: BitSeq, w2: BitSeq)
    requires Canon(d, p, q, w, w1) && Canon(d, q, r, w1, w2)
    ensures Canon(d, p, r, w, w2)
  {
    if |w2| - |w| == r - p {
      SliceJoin(w2, |w|, |w1|, |w2|);
      PrefixSlice(w1, w2, |w|, |w1|);
      SliceJoin(d, p, q, r);
    }
  }

  lemma CanonStart(d: BitSeq, p: nat, w: BitSeq)
    requires p <= |d|
    ensures Canon(d, p, p, w, w)
  {
  }

  /** Appending exactly the bits that were read. */
  lemma AppendCanon(d: BitSeq, p0: nat, p: nat, q: nat, w0: BitSeq, w: BitSeq, bits: BitSeq)
    requires Canon(d, p0, p, w0, w) && p <= q <= |d| && bits == d[p..q]
    ensures Canon(d, p0, q, w0, w + bits)
  {
    CanonJoin(d, p0, p, q, w0, w, w + bits);
  }

  /** One step of a "read, then write" proof, joined to the steps before it (which began at `p0` and `w0`). */
  lemma AgainU(d: BitSeq, p0: nat, p: nat, n: nat, w0: BitSeq, w: BitSeq) returns (w1: BitSeq)
    requires Canon(d, p0, p, w0, w) && RU(d, p, n).Ok?
    ensures WU(w, RU(d, p, n).value.0, n) == Ok(w1) && |w1| == |w| + n
    ensures Canon(d, p0, p + n, w0, w1)
  {
    w1 := WU(w, RU(d, p, n).value.0, n).value;
    BitsOfVal(d[p..p + n]);
    CanonJoin(d, p0, p, p + n, w0, w, w1);
  }

  lemma AgainU8(d: BitSeq, p0: nat, p: nat, n: nat, w0: BitSeq, w: BitSeq) returns (w1: BitSeq)
    requires n <= 8 && Canon(d, p0, p, w0, w) && RU8(d, p, n).Ok?
    ensures WU(w, RU8(d, p, n).value.0, n) == Ok(w1) && |w1| == |w| + n
    ensures Canon(d, p0, p + n, w0, w1)
  {
    w1 := AgainU(d, p0, p, n, w0, w);
  }

  lemma AgainU16(d: BitSeq, p0: nat, p: nat, w0: BitSeq, w: BitSeq) returns (w1: BitSeq)
    requires Canon(d, p0, p, w0, w) && RU16(d, p).Ok?
    ensures WU(w, RU16(d, p).value.0, 16) == Ok(w1) && |w1| == |w| + 16
    ensures Canon(d, p0, p + 16, w0, w1)
  {
    w1 := AgainU(d, p0, p, 16, w0, w);
  }

  lemma AgainU32(d: BitSeq, p0: nat, p: nat, n: nat, w0: BitSeq, w: BitSeq) returns (w1: BitSeq)
    requires n <= 32 && Canon(d, p0, p, w0, w) && RU32(d, p, n).Ok?
    ensures WU(w, RU32(d, p, n).value.0, n) == Ok(w1) && |w1| == |w| + n
    ensures Canon(d, p0, p + n, w0, w1)
  {
    w1 := AgainU(d, p0, p, n, w0, w);
  }

  lemma AgainBool(d: BitSeq, p0: nat, p: nat, w0: BitSeq, w: BitSeq) returns (w1: BitSeq)
    requires Canon(d, p0, p, w0, w) && RBool(d, p).Ok?
    ensures w1 == WBool(w, RBool(d, p).value.0)
    ensures Canon(d, p0, p + 1, w0, w1)
  {
    w1 := WBool(w, RBool(d, p).value.0);
    assert d[p..p + 1] == [d[p]];
    CanonJoin(d, p0, p, p + 1, w0, w, w1);
  }

  lemma SignWraps(raw: nat)
    requires raw < Pow2(16)
    ensures SignExtend(raw, 16) % Pow2(16) == raw
  {
    PowersOfTwo();
  }

  lemma AgainI16(d: BitSeq, p0: nat, p: nat, w0: BitSeq, w: BitSeq) returns (w1: BitSeq)
    requires Canon(d, p0, p, w0, w) && RI16(d, p).Ok?
    ensures w1 == WI16(w, RI16(d, p).value.0)
    ensures Canon(d, p0, p + 16, w0, w1)
  {
    hide SignExtend, Canon, Pow2;
    var (raw, _) := RU(d, p, 16).value;
    SignWraps(raw);
    I16Fits(w, RI16(d, p).value.0);
    w1 := AgainU(d, p0, p, 16, w0, w);
  }

  lemma AgainBytes(d: BitSeq, p0: nat, p: nat, len: nat, w0: BitSeq, w: BitSeq) returns (w1: BitSeq)
    requires Canon(d, p0, p, w0, w) && RSpan(d, p, len).Ok?
    ensures w1 == WBytes(w, RSpan(d, p, len).value.0)
    ensures Canon(d, p0, p + 8 * len, w0, w1)
  {
    w1 := WBytes(w, RSpan(d, p, len).value.0);
    BitsOfBytesAt(d, p, len);
    CanonJoin(d, p0, p, p + 8 * len, w0, w, w1);
  }

  lemma ByteShape(d: BitSeq, p: nat)
    requires RU8(d, p, 8).Ok?
    ensures d[p..p + 8] == BitsOf(RU8(d, p, 8).value.0, 8)
  {
    BitsOfVal(d[p..p + 8]);
  }

  lemma {:induction false} StringShape(d: BitSeq, p: nat, left: nat)
    requires RStringFrom(d, p, left).Ok?
    ensures var (s, q) := RStringFrom(d, p, left).value; d[p..q] == BytesBits(s)
    decreases left
  {
    hide BytesBits, BitsOf, RU8;
    var byte := RU8(d, p, 8).value.0;
    var q := RStringFrom(d, p, left).value.1;
    ByteShape(d, p);
    if byte == 0 {
      ConsBytesBits(byte, []);
      assert [byte] + [] == [byte] && BytesBits([]) == [];
    } else {
      StringShape(d, p + 8, left - 1);
      ConsBytesBits(byte, RStringFrom(d, p + 8, left - 1).value.0);
      SliceJoin(d, p, p + 8, q);
    }
  }

  lemma AgainString(d: BitSeq, p0: nat, p: nat, w0: BitSeq, w: BitSeq) returns (w1: BitSeq)
    requires Canon(d, p0, p, w0, w) && RString(d, p).Ok?
    ensures var (s, q) := RString(d, p).value;
            WString(w, s[..|s| - 1]) == Ok(w1) && Canon(d, p0, q, w0, w1)
  {
    hide BytesBits, BitsOf, RStringFrom;
    var (s, q) := RString(d, p).value;
    StringShape(d, p, MAX_STRING_BYTES);
    var payload := s[..|s| - 1];
    w1 := WString(w, payload).value;
    assert s == payload + [0];
    StringBits(w, payload);
    CanonJoin(d, p0, p, q, w0, w, w1);
  }
}
