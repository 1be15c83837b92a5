/** The bit-addressed writer, bit by bit, against the functional primitives. */
module BitWriters {
  import opened Core
  import opened Bits
  import opened Leb128

  /** A write that the specification maps from one state to `s` ended in `r` and the state `now`. */
  ghost predicate Did(s: Result<BitSeq>, r: Result<()>, now: BitSeq) {
    match s
    case Ok(w) => r == Ok(()) && now == w
    case Err(e) => r == Err(e)
  }

  class BitWriter {
    var out: seq<u8>
    /** The byte under construction: only its top `bitOff` bits can be set. */
    var partial: u8
    var bitOff: nat

    ghost predicate Valid()
      reads this
    {
      bitOff <= 7 && partial % Pow2(8 - bitOff) == 0
    }

    /** Everything written so far. */
    ghost function Bits(): BitSeq
      reads this
      requires Valid()
    {
      BytesBits(out) + BitsOf(partial / Pow2(8 - bitOff), bitOff)
    }

    constructor ()
      ensures Valid() && Bits() == []
    {
      out := [];
      partial := 0;
      bitOff := 0;
    }

    method WriteBit(bit: bool)
      requires Valid()
      modifies this
      ensures Valid() && Bits() == WBool(old(Bits()), bit)
    {
      PartialBit(partial, bitOff, bit);
      var shift := 7 - bitOff;
      if bit {
        partial := partial + Pow2(shift);
      }
      var next := bitOff + 1;
      if next >= 8 {
        ghost var full := out + [partial];
        assert full[..|full| - 1] == out;
        out := out + [partial];
        partial := 0;
        bitOff := 0;
      } else {
        bitOff := next;
      }
    }

    method WriteUnsigned(value: u64, bits: nat) returns (r: Result<()>)
      requires Valid()
      modifies this
      ensures Valid() && Did(WU(old(Bits()), value, bits), r, Bits())
      ensures r.Err? ==> Bits() == old(Bits())
    {
      hide BytesBits, BitsOf, Pow2, Valid, Bits, Shifted;
      PowersOfTwo();
      if bits > 64 {
        return Err(UnsupportedWidth);
      }
      if bits < 64 && value >= Pow2(bits) {
        return Err(ValueExceedsWidth);
      }
      NoBits(Shifted(value, bits));
      var i: nat := bits;
      while i > 0
        invariant i <= bits
        invariant Valid()
        invariant Bits() == old(Bits()) + BitsOf(Shifted(value, i), bits - i)
      {
        i := i - 1;
        ShiftedBits(value, i, bits);
        WriteBit(Shifted(value, i) % 2 == 1);
      }
      Unshifted(value);
      r := Ok(());
    }

    method WriteSigned(value: int, bits: nat) returns (r: Result<()>)
      requires Valid()
      modifies this
      ensures Valid() && Did(WS(old(Bits()), value, bits), r, Bits())
      ensures r.Err? ==> Bits() == old(Bits())
    {
      if bits == 0 || bits > 64 {
        return Err(UnsupportedWidth);
      }
      var masked := value % Pow2(bits);
      if SignExtend(masked, bits) != value {
        return Err(ValueExceedsWidth);
      }
      Pow2Monotone(bits, 64);
      PowersOfTwo();
      r := WriteUnsigned(masked, bits);
    }

    /** Cannot fail, so it has no result. */
    method WriteBool(value: bool)
      requires Valid()
      modifies this
      ensures Valid() && Bits() == WBool(old(Bits()), value)
    {
      OneBit(value);
      var _ := WriteUnsigned(if value then 1 else 0, 1);
    }

    method WriteBytes(bytes: seq<u8>)
      requires Valid()
      modifies this
      ensures Valid() && Bits() == WBytes(old(Bits()), bytes)
    {
      if bitOff == 0 {
        BytesBitsConcat(out, bytes);
        out := out + bytes;
        return;
      }
      NoBytes(Bits());
      hide BytesBits, BitsOf, Valid, Bits, Pow2;
      PowersOfTwo();
      for i := 0 to |bytes|
        invariant Valid() && Bits() == WBytes(old(Bits()), bytes[..i])
      {
        ByteAppended(old(Bits()), bytes, i);
        var _ := WriteUnsigned(bytes[i], 8);
      }
      assert bytes[..|bytes|] == bytes;
    }

    method WriteString(payload: seq<u8>) returns (r: Result<()>)
      requires Valid()
      modifies this
      ensures Valid() && Did(WString(old(Bits()), payload), r, Bits())
      ensures r.Err? ==> Bits() == old(Bits())
    {
      if |payload| + 1 > MAX_STRING_BYTES {
        return Err(StringTooLong);
      }
      if 0 in payload {
        return Err(StringHasInteriorNul);
      }
      WriteBytes(payload);
      PowersOfTwo();
      r := WriteUnsigned(0, 8);
    }

    /** `write_uleb128_fixed`: the loop never decides when to stop. */
    method WriteUleb128Fixed(value: u32, size: u8) returns (r: Result<()>)
      requires Valid()
      modifies this
      ensures Valid() && Did(WLebFixed(old(Bits()), value, size), r, Bits())
      ensures r.Err? ==> Bits() == old(Bits())
    {
      hide BytesBits, BitsOf, Valid, Bits, Pow2, LebBits, MinimalLen;
      if size == 0 || size > MAX_LEB128_SIZE {
        return Err(Leb128SizeInvalid);
      }
      if MinimalLen(value) > size {
        return Err(Leb128ValueTooLarge);
      }
      PowersOfTwo();
      var rest: nat := value;
      for group := 1 to size
        invariant Valid() && rest < U64_LIMIT
        invariant Bits() + LebBits(rest, size - group + 1) == old(Bits()) + LebBits(value, size)
      {
        ghost var before := Bits();
        var done := WriteUnsigned(rest % 128 + 128, 8);
        GroupAppended(before, rest, size - group + 1);
        rest := rest / 128;
      }
      LastGroup(rest);
      var _ := WriteUnsigned(rest % 128, 8);
      r := Ok(());
    }

    /** `write_uleb128_minimal`. */
    method WriteUleb128(value: u32)
      requires Valid()
      modifies this
      ensures Valid() && Bits() == WLeb(old(Bits()), value)
    {
      var _ := WriteUleb128Fixed(value, MinimalLen(value));
    }

    /** `write_signed` of an `i16` at sixteen bits, which cannot fail. */
    method WriteI16(value: i16)
      requires Valid()
      modifies this
      ensures Valid() && Bits() == WI16(old(Bits()), value)
    {
      I16Fits(Bits(), value);
      var _ := WriteSigned(value, 16);
    }

    method Clear()
      modifies this
      ensures Valid() && Bits() == []
    {
      out := [];
      partial := 0;
      bitOff := 0;
    }

    /** `as_bytes` and `finish`: a pending partial byte is refused, never padded. */
    method AsBytes() returns (r: Result<seq<u8>>)
      requires Valid()
      ensures r.Ok? <==> |Bits()| % 8 == 0
      ensures r.Ok? ==> r.value == Pack(Bits()) && BytesBits(r.value) == Bits()
      ensures r.Err? ==> r.error == NotByteAligned
    {
      if bitOff != 0 {
        return Err(NotByteAligned);
      }
      assert Bits() == BytesBits(out);
      PackOfBytes(out);
      r := Ok(out);
    }
  }

  // ------------------------------------------------------------- arithmetic

  /** Setting the next bit of the byte under construction appends that bit. */
  lemma PartialBit(partial: u8, bitOff: nat, bit: bool)
    requires bitOff <= 7 && partial % Pow2(8 - bitOff) == 0
    ensures var next := partial + (if bit then Pow2(7 - bitOff) else 0);
            && next < 256 && next % Pow2(7 - bitOff) == 0
            && BitsOf(next / Pow2(7 - bitOff), bitOff + 1) == BitsOf(partial / Pow2(8 - bitOff), bitOff) + [bit]
  {
    hide BitsOf, Pow2;
    SplitBits(bitOff);
    PartialSplit(partial, Pow2(8 - bitOff), Pow2(7 - bitOff), bit);
    BitsSnoc(partial / Pow2(8 - bitOff), bitOff, bit);
  }

  lemma SplitBits(bitOff: nat)
    requires bitOff <= 7
    ensures Pow2(7 - bitOff) in {1, 2, 4, 8, 16, 32, 64, 128} && Pow2(8 - bitOff) == 2 * Pow2(7 - bitOff)
  {
    PowersOfTwo();
  }

  lemma PartialSplit(partial: u8, whole: nat, half: nat, bit: bool)
    requires half in {1, 2, 4, 8, 16, 32, 64, 128} && whole == 2 * half && partial % whole == 0
    ensures var next := partial + (if bit then half else 0);
            next < 256 && next % half == 0 && next / half == 2 * (partial / whole) + (if bit then 1 else 0)
  {
    var q := partial / whole;
    PartialBound(partial, half);
    Multiple(partial, whole);
    Regroup(half, q);
    var b := if bit then 1 else 0;
    Exact(partial + (if bit then half else 0), half, 2 * q + b);
  }

  lemma Multiple(n: nat, m: nat)
    requires m > 0 && n % m == 0
    ensures n == m * (n / m)
  {
  }

  lemma Regroup(half: nat, q: nat)
    ensures 2 * half * q == half * (2 * q) && half * (2 * q + 1) == half * (2 * q) + half
  {
  }

  lemma Exact(n: nat, m: nat, q: nat)
    requires m > 0 && n == m * q
    ensures n / m == q && n % m == 0
  {
    DivUnique(n, m, q, 0);
  }

  lemma PartialBound(partial: u8, half: nat)
    requires half > 0 && partial % (2 * half) == 0 && half in {1, 2, 4, 8, 16, 32, 64, 128}
    ensures partial + half < 256
  {
  }

  lemma BitsSnoc(q: nat, n: nat, bit: bool)
    ensures BitsOf(2 * q + (if bit then 1 else 0), n + 1) == BitsOf(q, n) + [bit]
  {
    var v := 2 * q + (if bit then 1 else 0);
    assert v / 2 == q && v % 2 == (if bit then 1 else 0);
  }

  lemma NoBits(v: nat)
    ensures BitsOf(v, 0) == []
  {
  }

  lemma Quotient(a: nat, b: nat)
    requires b >= 1
    ensures a / b >= 0
  {
  }

  function Shifted(v: nat, i: nat): nat {
    hide Pow2;
    Quotient(v, Pow2(i));
    v / Pow2(i)
  }

  lemma Unshifted(v: nat)
    ensures Shifted(v, 0) == v
  {
  }

  /** Shifting by one less brings down one more bit. */
  lemma ShiftedBits(v: nat, i: nat, n: nat)
    requires i < n
    ensures BitsOf(Shifted(v, i), n - i) == BitsOf(Shifted(v, i + 1), n - i - 1) + [Shifted(v, i) % 2 == 1]
  {
    hide BitsOf;
    DivDiv(v, Pow2(i));
    BitsSnoc(Shifted(v, i + 1), n - i - 1, Shifted(v, i) % 2 == 1);
  }

  lemma DivDiv(v: nat, m: nat)
    requires m > 0
    ensures v / m / 2 == v / (2 * m)
  {
    var q, r := v / m, v % m;
    assert v == m * q + r;
    var h, b := q / 2, q % 2;
    assert m * q == 2 * m * h + m * b;
    assert m * b + r < 2 * m;
    DivUnique(v, 2 * m, h, m * b + r);
  }

  lemma DivUnique(v: nat, m: nat, q: nat, r: nat)
    requires m > 0 && v == m * q + r && r < m
    ensures v / m == q
  {
    var d := v / m - q;
    assert m * (v / m) + v % m == v;
    assert m * d == r - v % m;
  }

  lemma OneBit(value: bool)
    ensures BitsOf(if value then 1 else 0, 1) == [value] && Pow2(1) == 2
  {
  }

  lemma NoBytes(before: BitSeq)
    ensures WBytes(before, []) == before
  {
    assert BytesBits([]) == [];
  }

  lemma ByteAppended(before: BitSeq, bytes: seq<u8>, i: nat)
    requires i < |bytes|
    ensures WBytes(before, bytes[..i]) + BitsOf(bytes[i], 8) == WBytes(before, bytes[..i + 1])
  {
    hide BitsOf;
    assert bytes[..i + 1][..i] == bytes[..i];
  }

  lemma LastGroup(rest: nat)
    ensures LebBits(rest, 1) == BitsOf(rest % 128, 8)
  {
  }

  lemma GroupAppended(before: BitSeq, rest: nat, n: nat)
    requires n >= 2
    ensures before + BitsOf(rest % 128 + 128, 8) + LebBits(rest / 128, n - 1) == before + LebBits(rest, n)
  {
    hide BitsOf;
  }
}
