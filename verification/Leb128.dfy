/** uleb128 in both directions: seven bits a byte, at most eight bytes, at most a `u32`. */
module Leb128 {
  import opened Core
  import opened Bits

  const MAX_LEB128_SIZE := 8

  function MinimalLen(v: u32): (n: nat)
    ensures 1 <= n <= 5
  {
    if v <= 0x7f then 1
    else if v <= 0x3fff then 2
    else if v <= 0x1f_ffff then 3
    else if v <= 0xfff_ffff then 4
    else 5
  }

  /** How many values `n` seven-bit groups can carry. */
  function Capacity(n: nat): (r: nat)
    ensures r >= 1
  {
    if n == 0 then 1 else 128 * Capacity(n - 1)
  }

  /** `v` in exactly `n` groups, all but the last with the continuation bit. */
  function LebBits(v: nat, n: nat): (b: BitSeq)
    requires n >= 1
    ensures |b| == 8 * n
  {
    if n == 1 then BitsOf(v % 128, 8) else BitsOf(v % 128 + 128, 8) + LebBits(v / 128, n - 1)
  }

  /** `write_uleb128_fixed`. */
  function WLebFixed(w: BitSeq, v: u32, size: u8): (r: Result<BitSeq>)
    ensures r.Ok? ==> w <= r.value && |r.value| == |w| + 8 * size
  {
    if size == 0 || size > MAX_LEB128_SIZE then Err(Leb128SizeInvalid)
    else if MinimalLen(v) > size then Err(Leb128ValueTooLarge)
    else Ok(w + LebBits(v, size))
  }

  /** `write_uleb128_minimal`, which cannot fail. */
  function WLeb(w: BitSeq, v: u32): (r: BitSeq)
    ensures w <= r && |r| == |w| + 8 * MinimalLen(v)
  {
    WLebFixed(w, v, MinimalLen(v)).value
  }

  /** The seven-bit groups at `p`, at most `left` of them, as one number. */
  function RGroups(d: BitSeq, p: nat, left: nat): (r: Result<(nat, nat)>)
    ensures r.Ok? ==> p + 8 <= r.value.1 <= |d| && (r.value.1 - p) % 8 == 0
    decreases left
  {
    if left == 0 then Err(Leb128TooLong)
    else
      var (byte, p) :- RU8(d, p, 8);
      if byte < 128 then Ok((byte, p))
      else
        var (rest, p) :- RGroups(d, p, left - 1);
        Ok((byte % 128 + 128 * rest, p))
  }

  /** `read_uleb128`: both caps are checked on the whole field. */
  function RLeb(d: BitSeq, p: nat): (r: Result<(u32, nat)>)
    ensures r.Ok? ==> p + 8 <= r.value.1 <= |d| && (r.value.1 - p) % 8 == 0
  {
    var (v, p) :- RGroups(d, p, MAX_LEB128_SIZE);
    if v < U32_LIMIT then Ok((v, p)) else Err(Leb128ValueTooLarge)
  }

  /** The field at `p` takes no more groups than its value needs. */
  predicate LebMinimal(d: BitSeq, p: nat) {
    RLeb(d, p).Ok? ==> RLeb(d, p).value.1 == p + 8 * MinimalLen(RLeb(d, p).value.0)
  }

  // ------------------------------------------------------------ properties

  /** `minimal_len` is the least number of groups that can carry the value. */
  lemma MinimalLenIsLeast(v: u32, n: nat)
    ensures n >= 1 ==> (v < Capacity(n) <==> MinimalLen(v) <= n)
  {
    assert Capacity(4) == 0x1000_0000;
    if n > 4 {
      CapacityMonotone(5, n);
      assert Capacity(5) == 0x8_0000_0000;
    }
  }

  lemma {:induction false} CapacityMonotone(m: nat, n: nat)
    requires m <= n
    ensures Capacity(m) <= Capacity(n)
    decreases n
  {
    if m < n {
      CapacityMonotone(m, n - 1);
    }
  }

  lemma ByteLocal(d: BitSeq, d1: BitSeq, p: nat)
    requires p + 8 <= |d| && p + 8 <= |d1| && d1[p..p + 8] == d[p..p + 8]
    ensures RU8(d1, p, 8) == RU8(d, p, 8)
  {
  }

  lemma {:induction false} GroupsReadBack(d: BitSeq, p: nat, v: nat, n: nat, left: nat)
    requires 1 <= n <= left && v < Capacity(n)
    requires p + 8 * n <= |d| && d[p..p + 8 * n] == LebBits(v, n)
    ensures RGroups(d, p, left) == Ok((v, p + 8 * n))
    decreases n
  {
    hide BitsOf, Val, RU8;
    SubSlice(d, p, p + 8 * n, 0, 8);
    if n == 1 {
      ByteReads(d, p, v);
    } else {
      ByteReads(d, p, v % 128 + 128);
      SubSlice(d, p, p + 8 * n, 8, 8 * n);
      GroupsReadBack(d, p + 8, v / 128, n - 1, left - 1);
    }
  }

  /** Every fixed size that can carry the value, from the minimal one up to eight, decodes to it. */
  lemma StepLebFixed(w: BitSeq, v: u32, size: u8, d: BitSeq) returns (w1: BitSeq)
    requires WLebFixed(w, v, size).Ok? && WLebFixed(w, v, size).value <= d
    ensures w1 == WLebFixed(w, v, size).value && RLeb(d, |w|) == Ok((v, |w1|))
  {
    hide RGroups, LebBits, Capacity, MinimalLen;
    w1 := WLebFixed(w, v, size).value;
    PrefixSlice(w1, d, |w|, |w1|);
    MinimalLenIsLeast(v, size);
    GroupsReadBack(d, |w|, v, size, MAX_LEB128_SIZE);
  }

  lemma StepLeb(w: BitSeq, v: u32, d: BitSeq) returns (w1: BitSeq)
    requires WLeb(w, v) <= d
    ensures w1 == WLeb(w, v) && RLeb(d, |w|) == Ok((v, |w1|))
  {
    w1 := StepLebFixed(w, v, MinimalLen(v), d);
  }

  lemma OneGroup(byte: u8)
    requires byte < 128
    ensures byte < Capacity(1) && LebBits(byte, 1) == BitsOf(byte, 8)
  {
    hide BitsOf;
  }

  lemma LebBitsCons(byte: u8, rest: nat, m: nat)
    requires byte >= 128 && m >= 1 && rest < Capacity(m)
    ensures var v := byte % 128 + 128 * rest;
            v < Capacity(m + 1) && LebBits(v, m + 1) == BitsOf(byte, 8) + LebBits(rest, m)
  {
    hide BitsOf;
    var v := byte % 128 + 128 * rest;
    assert v % 128 == byte % 128 && v / 128 == rest;
  }

  /** A decoded field is the encoding of its value in as many groups as it occupied. */
  lemma {:induction false} GroupsShape(d: BitSeq, p: nat, left: nat) returns (n: nat)
    requires RGroups(d, p, left).Ok?
    ensures var (v, q) := RGroups(d, p, left).value;
            1 <= n <= left && v < Capacity(n) && q == p + 8 * n && d[p..q] == LebBits(v, n)
    decreases left
  {
    hide BitsOf, Val, RU8, LebBits, Capacity;
    var byte := RU8(d, p, 8).value.0;
    ByteShape(d, p);
    if byte < 128 {
      n := 1;
      OneGroup(byte);
    } else {
      var m := GroupsShape(d, p + 8, left - 1);
      n := m + 1;
      LebBitsCons(byte, RGroups(d, p + 8, left - 1).value.0, m);
      SliceJoin(d, p, p + 8, p + 8 * n);
    }
  }

  /** Re-encoding a decoded value never lengthens it, and keeps its bits exactly when the field was minimal. */
  lemma AgainLeb(d: BitSeq, p0: nat, p: nat, w0: BitSeq, w: BitSeq) returns (w1: BitSeq)
    requires Canon(d, p0, p, w0, w) && RLeb(d, p).Ok?
    ensures w1 == WLeb(w, RLeb(d, p).value.0)
    ensures Canon(d, p0, RLeb(d, p).value.1, w0, w1)
    ensures Tight(RLeb(d, p).value.1 - p, |w1| - |w|, LebMinimal(d, p))
  {
    hide BitsOf, Val, LebBits, RGroups;
    var n := GroupsShape(d, p, MAX_LEB128_SIZE);
    var v := RLeb(d, p).value.0;
    w1 := WLeb(w, v);
    MinimalLenIsLeast(v, n);
    CanonJoin(d, p0, p, p + 8 * n, w0, w, w1);
  }

  /** The field depends only on the bits it occupies. */
  lemma {:induction false} GroupsLocal(d: BitSeq, d1: BitSeq, p: nat, left: nat)
    requires RGroups(d, p, left).Ok?
    requires var q := RGroups(d, p, left).value.1; q <= |d1| && d1[p..q] == d[p..q]
    ensures RGroups(d1, p, left) == RGroups(d, p, left)
    decreases left
  {
    hide RU8;
    var q := RGroups(d, p, left).value.1;
    SubSlice(d, p, q, 0, 8);
    SubSlice(d1, p, q, 0, 8);
    ByteLocal(d, d1, p);
    if RU8(d, p, 8).value.0 >= 128 {
      SubSlice(d, p, q, 8, q - p);
      SubSlice(d1, p, q, 8, q - p);
      GroupsLocal(d, d1, p + 8, left - 1);
    }
  }

  lemma LebAligned(w: BitSeq, v: u32)
    requires |w| % 8 == 0
    ensures |WLeb(w, v)| % 8 == 0
  {
    hide WLeb;
  }
}
