/** The bounded, bit-addressed cursor, bit by bit, against the functional reads. */
module BitCursors {
  import opened Core
  import opened Bits
  import opened Leb128

  /** A read that the specification maps to `s` ended in `r` with the cursor at `pos`. */
  ghost predicate Got<T>(s: Result<(T, nat)>, r: Result<T>, pos: nat) {
    match s
    case Ok((x, q)) => r == Ok(x) && pos == q
    case Err(e) => r == Err(e)
  }

  class BitCursor {
    const data: seq<u8>
    var bytePos: nat
    var bitOff: nat

    ghost predicate Valid()
      reads this
    {
      bytePos <= |data| && bitOff <= 7 && (bytePos == |data| ==> bitOff == 0)
    }

    /** The input as bits. */
    ghost function Wire(): (d: BitSeq)
      ensures |d| == 8 * |data|
    {
      BytesBits(data)
    }

    ghost function Pos(): nat
      reads this
    {
      8 * bytePos + bitOff
    }

    constructor (input: seq<u8>)
      ensures Valid() && data == input && Pos() == 0
    {
      data := input;
      bytePos := 0;
      bitOff := 0;
    }

    /** A cursor on the same input at the same place: inspecting it does not move this one. */
    method Clone() returns (c: BitCursor)
      requires Valid()
      ensures fresh(c) && c.Valid() && c.data == data && c.Wire() == Wire() && c.Pos() == Pos()
    {
      c := new BitCursor(data);
      c.bytePos, c.bitOff := bytePos, bitOff;
    }

    function BitsRemaining(): (n: nat)
      reads this
      requires Valid()
      ensures n == |Wire()| - Pos()
    {
      8 * (|data| - bytePos) - bitOff
    }

    function BytesRemaining(): (n: nat)
      reads this
      requires Valid()
      ensures n == Remaining(Wire(), Pos())
    {
      BitsRemaining() / 8
    }

    method ReadBit() returns (r: Result<bool>)
      requires Valid()
      modifies this`bytePos, this`bitOff
      ensures Valid() && Got(RBool(Wire(), old(Pos())), r, Pos())
      ensures r.Err? ==> Pos() == old(Pos())
    {
      if bytePos >= |data| {
        return Err(UnexpectedEndOfInput);
      }
      var byte := data[bytePos];
      var shift := 7 - bitOff;
      BitInByte(data, bytePos, bitOff);
      var bit := byte / Pow2(shift) % 2 == 1;
      AdvanceOneBit();
      r := Ok(bit);
    }

    method AdvanceOneBit()
      requires Valid() && bytePos < |data|
      modifies this`bytePos, this`bitOff
      ensures Valid() && Pos() == old(Pos()) + 1
    {
      var next := bitOff + 1;
      if next >= 8 {
        bitOff := 0;
        bytePos := bytePos + 1;
      } else {
        bitOff := next;
      }
    }

    method ReadUnsigned(bits: nat) returns (r: Result<nat>)
      requires Valid()
      modifies this`bytePos, this`bitOff
      ensures Valid() && Got(RU(Wire(), old(Pos()), bits), r, Pos())
      ensures r.Err? ==> Pos() == old(Pos())
    {
      if bits > 64 {
        return Err(UnsupportedWidth);
      }
      if bits > BitsRemaining() {
        return Err(UnexpectedEndOfInput);
      }
      hide Val, Wire, BytesBits;
      ghost var start := Pos();
      ghost var d := Wire();
      NoValue(d, start);
      var acc: nat := 0;
      for i := 0 to bits
        invariant Valid() && Pos() == start + i && start + bits <= |d|
        invariant acc == Val(d[start..start + i])
      {
        var bit :- assert ReadBit();
        NextValue(d, start, i);
        acc := 2 * acc + (if bit then 1 else 0);
      }
      r := Ok(acc);
    }

    method ReadSigned(bits: nat) returns (r: Result<int>)
      requires Valid()
      modifies this`bytePos, this`bitOff
      ensures Valid() && Got(RS(Wire(), old(Pos()), bits), r, Pos())
      ensures r.Err? ==> Pos() == old(Pos())
    {
      if bits == 0 || bits > 64 {
        return Err(UnsupportedWidth);
      }
      var raw :- ReadUnsigned(bits);
      r := Ok(SignExtend(raw, bits));
    }

    method ReadBool() returns (r: Result<bool>)
      requires Valid()
      modifies this`bytePos, this`bitOff
      ensures Valid() && Got(RBool(Wire(), old(Pos())), r, Pos())
      ensures r.Err? ==> Pos() == old(Pos())
    {
      if Pos() < |Wire()| {
        OneBitValue(Wire(), Pos());
      }
      var v :- ReadUnsigned(1);
      r := Ok(v == 1);
    }

    /** Bytes until and including a NUL, at most 128 of them. */
    method ReadString() returns (r: Result<seq<u8>>)
      requires Valid()
      modifies this`bytePos, this`bitOff
      ensures Valid() && Got(RString(Wire(), old(Pos())), r, Pos())
    {
      hide Val, Wire, BytesBits, RU8, RStringFrom, Prefixed;
      var out: seq<u8> := [];
      ghost var d, start := Wire(), Pos();
      NothingRead(d, start);
      while true
        invariant Valid() && |out| <= MAX_STRING_BYTES
        invariant Prefixed(out, RStringFrom(d, Pos(), MAX_STRING_BYTES - |out|)) == RString(d, start)
        decreases MAX_STRING_BYTES - |out|
      {
        StringStops(d, out, Pos(), MAX_STRING_BYTES - |out|);
        if |out| >= MAX_STRING_BYTES {
          return Err(StringNotTerminated);
        }
        var byte :- ReadU8(8);
        PrefixedSnoc(d, out, byte, Pos(), MAX_STRING_BYTES - |out| - 1);
        out := out + [byte];
        if byte == 0 {
          return Ok(out);
        }
      }
    }

    /** A field of at most eight bits. */
    method ReadU8(bits: nat) returns (r: Result<u8>)
      requires Valid() && bits <= 8
      modifies this`bytePos, this`bitOff
      ensures Valid() && Got(RU8(Wire(), old(Pos()), bits), r, Pos())
      ensures r.Err? ==> Pos() == old(Pos())
    {
      var v :- ReadUnsigned(bits);
      Pow2Monotone(bits, 8);
      PowersOfTwo();
      r := Ok(v);
    }

    method ReadU16() returns (r: Result<u16>)
      requires Valid()
      modifies this`bytePos, this`bitOff
      ensures Valid() && Got(RU16(Wire(), old(Pos())), r, Pos())
    {
      var v :- ReadUnsigned(16);
      PowersOfTwo();
      r := Ok(v);
    }

    method ReadU32(bits: nat) returns (r: Result<u32>)
      requires Valid() && bits <= 32
      modifies this`bytePos, this`bitOff
      ensures Valid() && Got(RU32(Wire(), old(Pos()), bits), r, Pos())
    {
      var v :- ReadUnsigned(bits);
      Pow2Monotone(bits, 32);
      PowersOfTwo();
      r := Ok(v);
    }

    method ReadI16() returns (r: Result<i16>)
      requires Valid()
      modifies this`bytePos, this`bitOff
      ensures Valid() && Got(RI16(Wire(), old(Pos())), r, Pos())
    {
      var v :- ReadSigned(16);
      PowersOfTwo();
      r := Ok(v);
    }

    /** Whole bytes, bounded before they are taken; only at a byte boundary. */
    method ReadSpan(len: nat) returns (r: Result<seq<u8>>)
      requires Valid()
      modifies this`bytePos, this`bitOff
      ensures Valid() && Got(RSpan(Wire(), old(Pos()), len), r, Pos())
      ensures r.Err? ==> Pos() == old(Pos())
      ensures r.Ok? ==> r.value == data[old(bytePos)..bytePos]
    {
      if bitOff != 0 {
        return Err(NotByteAligned);
      }
      if len > BytesRemaining() {
        return Err(UnexpectedEndOfInput);
      }
      var end := bytePos + len;
      SpanBytes(data, bytePos, len);
      r := Ok(data[bytePos..end]);
      bytePos := end;
    }

    /** A cursor over exactly the next `len` bytes, this one moved past them. */
    method SubReader(len: nat) returns (r: Result<BitCursor>)
      requires Valid()
      modifies this`bytePos, this`bitOff
      ensures Valid() && (RSpan(Wire(), old(Pos()), len).Err? <==> r.Err?)
      ensures r.Err? ==> r.error == RSpan(Wire(), old(Pos()), len).error && Pos() == old(Pos())
      ensures r.Ok? ==>
                && Pos() == old(Pos()) + 8 * len && old(Pos()) + 8 * len <= |Wire()|
                && fresh(r.value) && r.value.Valid() && r.value.Pos() == 0
                && r.value.Wire() == Wire()[old(Pos())..Pos()]
    {
      var span :- ReadSpan(len);
      BitsOfBytesAt(Wire(), old(Pos()), len);
      var child := new BitCursor(span);
      r := Ok(child);
    }

    /** `read_uleb128`: the accumulator never leaves 56 bits, so it is narrowed once at the end. */
    method ReadUleb128() returns (r: Result<u32>)
      requires Valid()
      modifies this`bytePos, this`bitOff
      ensures Valid() && Got(RLeb(Wire(), old(Pos())), r, Pos())
    {
      hide Val, Wire, BytesBits, RU8, Capacity, RGroups, Summed, Gathered;
      ghost var d, start := Wire(), Pos();
      var acc: nat := 0;
      var scale := 1;
      NothingSummed(d, start);
      for i := 0 to MAX_LEB128_SIZE
        invariant Valid() && scale == Capacity(i) && acc < Capacity(i)
        invariant Summed(acc, scale, RGroups(d, Pos(), MAX_LEB128_SIZE - i)) == RGroups(d, start, MAX_LEB128_SIZE)
      {
        GroupsStop(d, acc, scale, Pos(), MAX_LEB128_SIZE - i);
        var byte :- ReadU8(8);
        NextGroup(d, acc, scale, byte, Pos(), MAX_LEB128_SIZE - i - 1);
        CapacityStep(i, acc, byte);
        acc := Gathered(acc, scale, byte);
        if byte < 128 {
          if acc >= U32_LIMIT {
            return Err(Leb128ValueTooLarge);
          }
          return Ok(acc);
        }
        scale := scale * 128;
      }
      GroupsStop(d, acc, scale, Pos(), 0);
      r := Err(Leb128TooLong);
    }
  }

  // ------------------------------------------------------------- what each bit is

  lemma {:induction false} BitAt(v: nat, n: nat, j: nat)
    requires j < n
    ensures BitsOf(v, n)[j] <==> v / Pow2(n - 1 - j) % 2 == 1
    decreases n
  {
    if j < n - 1 {
      BitAt(v / 2, n - 1, j);
      HalveFirst(v, Pow2(n - 2 - j));
    }
  }

  lemma HalveFirst(v: nat, m: nat)
    requires m > 0
    ensures v / 2 / m == v / (2 * m)
  {
    var h, b := v / 2, v % 2;
    var q, r := h / m, h % m;
    assert v == 2 * (m * q + r) + b == (2 * m) * q + (2 * r + b);
    Quotients(v, 2 * m, q, 2 * r + b);
  }

  lemma Quotients(v: nat, m: nat, q: nat, r: nat)
    requires m > 0 && v == m * q + r && r < m
    ensures v / m == q
  {
    var d := v / m - q;
    assert m * (v / m) + v % m == v;
    assert m * d == r - v % m;
  }

  lemma BitInByte(data: seq<u8>, i: nat, off: nat)
    requires i < |data| && off <= 7
    ensures BytesBits(data)[8 * i + off] <==> data[i] / Pow2(7 - off) % 2 == 1
  {
    BytesBitsAt(data, i);
    BitAt(data[i], 8, off);
    assert BytesBits(data)[8 * i..8 * i + 8][off] == BytesBits(data)[8 * i + off];
  }

  lemma NoValue(d: BitSeq, p: nat)
    requires p <= |d|
    ensures Val(d[p..p]) == 0
  {
  }

  lemma NextValue(d: BitSeq, p: nat, i: nat)
    requires p + i < |d|
    ensures Val(d[p..p + i + 1]) == 2 * Val(d[p..p + i]) + (if d[p + i] then 1 else 0)
  {
    assert d[p..p + i + 1][..i] == d[p..p + i];
  }

  lemma OneBitValue(d: BitSeq, p: nat)
    requires p < |d|
    ensures Val(d[p..p + 1]) == if d[p] then 1 else 0
  {
    NextValue(d, p, 0);
    NoValue(d, p);
  }

  lemma SpanBytes(data: seq<u8>, i: nat, len: nat)
    requires i + len <= |data|
    ensures BytesAt(BytesBits(data), 8 * i, len) == data[i..i + len]
  {
    hide BytesBits, ByteAt;
    var span := data[i..i + len];
    BytesBitsSlice(data, i, i + len);
    assert 8 * i + 8 * |span| == 8 * (i + len);
    BytesAtOfBits(BytesBits(data), 8 * i, span);
  }

  lemma BytesBitsSlice(data: seq<u8>, a: nat, b: nat)
    requires a <= b <= |data|
    ensures BytesBits(data)[8 * a..8 * b] == BytesBits(data[a..b])
  {
    hide BytesBits;
    ThreeParts(data, a, b);
    BytesBitsMiddle(data[..a], data[a..b], data[b..]);
  }

  lemma ThreeParts(data: seq<u8>, a: nat, b: nat)
    requires a <= b <= |data|
    ensures data == data[..a] + data[a..b] + data[b..]
  {
  }

  lemma BytesBitsMiddle(x: seq<u8>, y: seq<u8>, z: seq<u8>)
    ensures BytesBits(x + y + z)[8 * |x|..8 * (|x| + |y|)] == BytesBits(y)
  {
    hide BytesBits;
    BytesBitsConcat(x + y, z);
    BytesBitsConcat(x, y);
    Middle(BytesBits(x), BytesBits(y), BytesBits(z));
  }

  lemma Middle(x: BitSeq, y: BitSeq, z: BitSeq)
    ensures (x + y + z)[|x|..|x| + |y|] == y
  {
  }

  // ------------------------------------------------------------- loop states

  /** `out` already read, in front of what is still to come. */
  ghost function Prefixed(out: seq<u8>, rest: Result<(seq<u8>, nat)>): Result<(seq<u8>, nat)> {
    match rest
    case Ok((s, q)) => Ok((out + s, q))
    case Err(e) => Err(e)
  }

  lemma NothingRead(d: BitSeq, p: nat)
    ensures Prefixed([], RStringFrom(d, p, MAX_STRING_BYTES)) == RString(d, p)
  {
    hide RStringFrom;
    if RString(d, p).Ok? {
      assert [] + RString(d, p).value.0 == RString(d, p).value.0;
    }
  }

  lemma StringStops(d: BitSeq, out: seq<u8>, p: nat, left: nat)
    ensures left == 0 ==> Prefixed(out, RStringFrom(d, p, left)) == Err(StringNotTerminated)
    ensures left > 0 && RU8(d, p, 8).Err? ==> Prefixed(out, RStringFrom(d, p, left)) == Err(RU8(d, p, 8).error)
  {
    hide RU8;
  }

  lemma PrefixedSnoc(d: BitSeq, out: seq<u8>, byte: u8, p: nat, left: nat)
    requires p >= 8 && RU8(d, p - 8, 8) == Ok((byte, p))
    ensures Prefixed(out, RStringFrom(d, p - 8, left + 1))
         == if byte == 0 then Ok((out + [byte], p)) else Prefixed(out + [byte], RStringFrom(d, p, left))
  {
    hide RU8;
    if byte != 0 && RStringFrom(d, p, left).Ok? {
      assert out + ([byte] + RStringFrom(d, p, left).value.0) == out + [byte] + RStringFrom(d, p, left).value.0;
    }
  }

  /** The seven payload bits of `byte`, weighted and added. */
  function Gathered(acc: nat, scale: nat, byte: u8): nat {
    acc + scale * (byte % 128)
  }

  /** `acc` already gathered, `scale` the weight of the next group. */
  ghost function Summed(acc: nat, scale: nat, rest: Result<(nat, nat)>): Result<(nat, nat)> {
    match rest
    case Ok((v, q)) => Ok((acc + scale * v, q))
    case Err(e) => Err(e)
  }

  lemma NothingSummed(d: BitSeq, p: nat)
    ensures Capacity(0) == 1 && Summed(0, 1, RGroups(d, p, MAX_LEB128_SIZE)) == RGroups(d, p, MAX_LEB128_SIZE)
  {
  }

  lemma GroupsStop(d: BitSeq, acc: nat, scale: nat, p: nat, left: nat)
    ensures left == 0 ==> Summed(acc, scale, RGroups(d, p, left)) == Err(Leb128TooLong)
    ensures left > 0 && RU8(d, p, 8).Err? ==> Summed(acc, scale, RGroups(d, p, left)) == Err(RU8(d, p, 8).error)
  {
    hide RU8;
  }

  lemma NextGroup(d: BitSeq, acc: nat, scale: nat, byte: u8, p: nat, left: nat)
    requires p >= 8 && RU8(d, p - 8, 8) == Ok((byte, p))
    ensures Summed(acc, scale, RGroups(d, p - 8, left + 1))
         == if byte < 128 then Ok((Gathered(acc, scale, byte), p))
            else Summed(Gathered(acc, scale, byte), scale * 128, RGroups(d, p, left))
  {
    hide RU8;
    if byte >= 128 && RGroups(d, p, left).Ok? {
      var v := RGroups(d, p, left).value.0;
      assert scale * (byte % 128 + 128 * v) == scale * (byte % 128) + scale * 128 * v;
    }
  }

  lemma CapacityStep(i: nat, acc: nat, byte: u8)
    requires acc < Capacity(i)
    ensures Capacity(i) * 128 == Capacity(i + 1) && Gathered(acc, Capacity(i), byte) < Capacity(i + 1)
  {
    AtMost(Capacity(i), byte % 128, acc);
  }

  lemma AtMost(c: nat, group: nat, acc: nat)
    requires group <= 127 && acc < c
    ensures acc + c * group < 128 * c
  {
    assert c * group <= c * 127;
  }
}
