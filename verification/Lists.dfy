/** Counted loops over items, written and read through first-class item codecs. */
module Lists {
  import opened Core
  import opened Bits
  import opened Leb128

  type ItemWriter<!T> = (BitSeq, T) -> Result<BitSeq>
  type ItemReader<T> = (BitSeq, nat) -> Result<(T, nat)>
  type ItemTest = (BitSeq, nat) -> bool

  function WMany<T>(w: BitSeq, xs: seq<T>, i: nat, wr: ItemWriter<T>): Result<BitSeq>
    requires i <= |xs|
    decreases |xs| - i
  {
    if i == |xs| then Ok(w)
    else
      var w :- wr(w, xs[i]);
      WMany(w, xs, i + 1, wr)
  }

  /** `n` more items at `p`, after the ones in `acc`. */
  function RMany<T>(d: BitSeq, p: nat, n: nat, acc: seq<T>, rd: ItemReader<T>): (r: Result<(seq<T>, nat)>)
    ensures r.Ok? ==> acc <= r.value.0 && |r.value.0| == |acc| + n
    decreases n
  {
    if n == 0 then Ok((acc, p))
    else
      var (x, p) :- rd(d, p);
      RMany(d, p, n - 1, acc + [x], rd)
  }

  /** A derived count, refused when it is not a `u32`, then the items. */
  function WCounted<T>(w: BitSeq, xs: seq<T>, wr: ItemWriter<T>): Result<BitSeq> {
    if |xs| >= U32_LIMIT then Err(ObuTooLarge)
    else
      var w := WLeb(w, |xs|);
      WMany(w, xs, 0, wr)
  }

  /** A count, refused when it exceeds the bytes left, then that many items. */
  function RCounted<T>(d: BitSeq, p: nat, rd: ItemReader<T>): Result<(seq<T>, nat)> {
    var (count, p) :- RLeb(d, p);
    if count > Remaining(d, p) then Err(UnexpectedEndOfInput) else RMany(d, p, count, [], rd)
  }

  /** A byte string behind its derived length. */
  function WSized(w: BitSeq, bytes: seq<u8>): Result<BitSeq> {
    if |bytes| >= U32_LIMIT then Err(ObuTooLarge) else Ok(WBytes(WLeb(w, |bytes|), bytes))
  }

  function RSized(d: BitSeq, p: nat): Result<(seq<u8>, nat)> {
    hide RLeb;
    var (size, p) :- RLeb(d, p);
    RSpan(d, p, size)
  }

  // What is minimal on the wire: every uleb128 in it takes no more bytes than its value needs.

  /** An item with no uleb128 in it. */
  predicate Fixed(d: BitSeq, p: nat) {
    true
  }

  predicate ManyMinimal<T>(d: BitSeq, p: nat, n: nat, rd: ItemReader<T>, test: ItemTest)
    decreases n
  {
    n == 0 || (test(d, p) && ManyMinimal(d, End(rd(d, p)), n - 1, rd, test))
  }

  predicate CountedMinimal<T>(d: BitSeq, p: nat, rd: ItemReader<T>, test: ItemTest) {
    LebMinimal(d, p) && (RLeb(d, p).Ok? ==> ManyMinimal(d, End(RLeb(d, p)), RLeb(d, p).value.0, rd, test))
  }

  // ------------------------------------------------------------ properties

  /** Whole bytes are appended (at least one if `solid`), and `rd` reads `x` back from any input they begin. */
  ghost predicate ReadsBackAt<T>(wr: ItemWriter<T>, rd: ItemReader<T>, d: BitSeq, solid: bool, x: T, w: BitSeq) {
    |w| % 8 == 0 && wr(w, x).Ok? ==>
      var w1 := wr(w, x).value;
      && w <= w1 && |w1| % 8 == 0 && (solid ==> |w| + 8 <= |w1|)
      && (w1 <= d ==> rd(d, |w|) == Ok((x, |w1|)))
  }

  ghost predicate ReadsBack<T>(wr: ItemWriter<T>, rd: ItemReader<T>, d: BitSeq, solid: bool, x: T) {
    forall w: BitSeq :: ReadsBackAt(wr, rd, d, solid, x, w)
  }

  /** What `rd` accepts at `p` occupies whole bytes and can be written again canonically. */
  ghost predicate RewritesAt<T>(
      wr: ItemWriter<T>, rd: ItemReader<T>, test: ItemTest, d: BitSeq, p: nat, w: BitSeq)
  {
    p % 8 == 0 && p <= |d| && rd(d, p).Ok? ==>
      var (x, q) := rd(d, p).value;
      && wr(w, x).Ok? && Canon(d, p, q, w, wr(w, x).value) && q % 8 == 0
      && Tight(q - p, |wr(w, x).value| - |w|, test(d, p))
  }

  ghost predicate Rewrites<T>(wr: ItemWriter<T>, rd: ItemReader<T>, test: ItemTest, d: BitSeq) {
    forall p: nat, w: BitSeq :: RewritesAt(wr, rd, test, d, p, w)
  }

  lemma {:induction false} ManyGrows<T>(
      wr: ItemWriter<T>, rd: ItemReader<T>, d: BitSeq, solid: bool, w: BitSeq, xs: seq<T>, i: nat)
    requires i <= |xs| && |w| % 8 == 0 && WMany(w, xs, i, wr).Ok?
    requires forall k | i <= k < |xs| :: ReadsBack(wr, rd, d, solid, xs[k])
    ensures var w1 := WMany(w, xs, i, wr).value;
            w <= w1 && |w1| % 8 == 0 && (solid ==> |w| + 8 * (|xs| - i) <= |w1|)
    decreases |xs| - i
  {
    if i < |xs| {
      assert ReadsBackAt(wr, rd, d, solid, xs[i], w);
      ManyGrows(wr, rd, d, solid, wr(w, xs[i]).value, xs, i + 1);
    }
  }

  lemma {:induction false} StepMany<T>(
      wr: ItemWriter<T>, rd: ItemReader<T>, d: BitSeq, solid: bool, w: BitSeq, xs: seq<T>, i: nat) returns (w1: BitSeq)
    requires i <= |xs| && |w| % 8 == 0 && WMany(w, xs, i, wr).Ok? && WMany(w, xs, i, wr).value <= d
    requires forall k | i <= k < |xs| :: ReadsBack(wr, rd, d, solid, xs[k])
    ensures w1 == WMany(w, xs, i, wr).value && w <= w1 && |w1| % 8 == 0
    ensures solid ==> |w| + 8 * (|xs| - i) <= |w1|
    ensures RMany(d, |w|, |xs| - i, xs[..i], rd) == Ok((xs, |w1|))
    decreases |xs| - i
  {
    ManyGrows(wr, rd, d, solid, w, xs, i);
    if i < |xs| {
      assert ReadsBackAt(wr, rd, d, solid, xs[i], w);
      var next := wr(w, xs[i]).value;
      ManyGrows(wr, rd, d, solid, next, xs, i + 1);
      w1 := StepMany(wr, rd, d, solid, next, xs, i + 1);
      assert xs[..i] + [xs[i]] == xs[..i + 1];
    } else {
      w1 := w;
      assert xs[..i] == xs;
    }
  }

  lemma StepCounted<T>(
      wr: ItemWriter<T>, rd: ItemReader<T>, d: BitSeq, w: BitSeq, xs: seq<T>) returns (w1: BitSeq)
    requires |w| % 8 == 0 && WCounted(w, xs, wr).Ok? && WCounted(w, xs, wr).value <= d
    requires forall k | 0 <= k < |xs| :: ReadsBack(wr, rd, d, true, xs[k])
    ensures w1 == WCounted(w, xs, wr).value && w <= w1 && |w1| % 8 == 0 && |w| + 8 <= |w1|
    ensures RCounted(d, |w|, rd) == Ok((xs, |w1|))
  {
    hide RLeb, WLeb, RMany, WMany, ReadsBack;
    var items := WLeb(w, |xs|);
    w1 := StepMany(wr, rd, d, true, items, xs, 0);
    var _ := StepLeb(w, |xs|, d);
    assert xs[..0] == [];
  }

  lemma {:induction false} AgainMany<T>(
      wr: ItemWriter<T>, rd: ItemReader<T>, test: ItemTest, d: BitSeq, p0: nat, p: nat, n: nat, acc: seq<T>,
      w0: BitSeq, w: BitSeq) returns (w1: BitSeq)
    requires Canon(d, p0, p, w0, w) && p % 8 == 0
    requires RMany(d, p, n, acc, rd).Ok? && Rewrites(wr, rd, test, d)
    ensures var (xs, q) := RMany(d, p, n, acc, rd).value;
            && WMany(w, xs, |acc|, wr) == Ok(w1) && Canon(d, p0, q, w0, w1) && q % 8 == 0
            && Tight(q - p, |w1| - |w|, ManyMinimal(d, p, n, rd, test))
    decreases n
  {
    if n == 0 {
      w1 := w;
    } else {
      assert RewritesAt(wr, rd, test, d, p, w);
      var (x, q) := rd(d, p).value;
      var next := wr(w, x).value;
      CanonJoin(d, p0, p, q, w0, w, next);
      w1 := AgainMany(wr, rd, test, d, p0, q, n - 1, acc + [x], w0, next);
      assert RMany(d, p, n, acc, rd).value.0[|acc|] == x;
    }
  }

  lemma {:induction false} FixedItems<T>(d: BitSeq, p: nat, n: nat, rd: ItemReader<T>)
    ensures ManyMinimal(d, p, n, rd, Fixed)
    decreases n
  {
    if n > 0 {
      FixedItems(d, End(rd(d, p)), n - 1, rd);
    }
  }

  lemma AgainCounted<T>(
      wr: ItemWriter<T>, rd: ItemReader<T>, test: ItemTest, d: BitSeq, p0: nat, p: nat, w0: BitSeq, w: BitSeq)
      returns (w1: BitSeq)
    requires Canon(d, p0, p, w0, w) && p % 8 == 0
    requires RCounted(d, p, rd).Ok? && Rewrites(wr, rd, test, d)
    ensures var (xs, q) := RCounted(d, p, rd).value;
            && WCounted(w, xs, wr) == Ok(w1) && Canon(d, p0, q, w0, w1) && q % 8 == 0
            && Tight(q - p, |w1| - |w|, CountedMinimal(d, p, rd, test))
  {
    hide RLeb, WLeb, LebMinimal, RMany, WMany, ManyMinimal, Rewrites;
    var (count, q) := RLeb(d, p).value;
    var next := AgainLeb(d, p0, p, w0, w);
    w1 := AgainMany(wr, rd, test, d, p0, q, count, [], w0, next);
  }

  /** What every accepted item satisfies, every item of an accepted list satisfies. */
  lemma {:induction false} ManySatisfy<T>(
      d: BitSeq, p: nat, n: nat, acc: seq<T>, rd: ItemReader<T>, good: T -> bool)
    requires RMany(d, p, n, acc, rd).Ok?
    requires forall x | x in acc :: good(x)
    requires p % 8 == 0 && p <= |d|
    requires forall q: nat | q % 8 == 0 && q <= |d| && rd(d, q).Ok? ::
               good(rd(d, q).value.0) && rd(d, q).value.1 % 8 == 0 && rd(d, q).value.1 <= |d|
    ensures forall x | x in RMany(d, p, n, acc, rd).value.0 :: good(x)
    decreases n
  {
    if n > 0 {
      var (x, q) := rd(d, p).value;
      ManySatisfy(d, q, n - 1, acc + [x], rd, good);
    }
  }

  lemma CountedSatisfy<T>(d: BitSeq, p: nat, rd: ItemReader<T>, good: T -> bool)
    requires RCounted(d, p, rd).Ok? && p % 8 == 0
    requires forall q: nat | q % 8 == 0 && q <= |d| && rd(d, q).Ok? ::
               good(rd(d, q).value.0) && rd(d, q).value.1 % 8 == 0 && rd(d, q).value.1 <= |d|
    ensures forall x | x in RCounted(d, p, rd).value.0 :: good(x)
  {
    hide RLeb, RMany;
    var (count, q) := RLeb(d, p).value;
    assert q % 8 == 0;
    ManySatisfy(d, q, count, [], rd, good);
  }

  // The item codec that needs no context.

  function WLebItem(w: BitSeq, x: u32): Result<BitSeq> {
    Ok(WLeb(w, x))
  }

  lemma LebReadsBack(d: BitSeq, x: u32)
    ensures ReadsBack(WLebItem, RLeb, d, true, x)
  {
    hide RLeb, WLeb;
    forall w: BitSeq
      ensures ReadsBackAt(WLebItem, RLeb, d, true, x, w)
    {
      if WLeb(w, x) <= d {
        var _ := StepLeb(w, x, d);
      }
    }
  }

  lemma LebRewrites(d: BitSeq)
    ensures Rewrites(WLebItem, RLeb, LebMinimal, d)
  {
    hide RLeb, WLeb, LebMinimal;
    forall p: nat, w: BitSeq
      ensures RewritesAt(WLebItem, RLeb, LebMinimal, d, p, w)
    {
      if RLeb(d, p).Ok? {
        var _ := AgainLeb(d, p, p, w, w);
      }
    }
  }

  // A length-prefixed byte string.

  lemma StepSized(w: BitSeq, bytes: seq<u8>, d: BitSeq) returns (w1: BitSeq)
    requires |w| % 8 == 0 && WSized(w, bytes).Ok? && WSized(w, bytes).value <= d
    ensures w1 == WSized(w, bytes).value && w <= w1 && |w1| % 8 == 0 && |w| + 8 <= |w1|
    ensures RSized(d, |w|) == Ok((bytes, |w1|))
  {
    hide WLeb, RLeb, WBytes, RSpan;
    var head := WLeb(w, |bytes|);
    assert |head| % 8 == 0;
    w1 := StepBytes(head, bytes, d);
    var _ := StepLeb(w, |bytes|, d);
  }

  lemma AgainSized(d: BitSeq, p0: nat, p: nat, w0: BitSeq, w: BitSeq) returns (w1: BitSeq)
    requires Canon(d, p0, p, w0, w) && p % 8 == 0 && RSized(d, p).Ok?
    ensures var (bytes, q) := RSized(d, p).value;
            && WSized(w, bytes) == Ok(w1) && Canon(d, p0, q, w0, w1) && q % 8 == 0
            && Tight(q - p, |w1| - |w|, LebMinimal(d, p))
  {
    hide WLeb, RLeb, LebMinimal, WBytes, RSpan, Canon;
    var (size, q) := RLeb(d, p).value;
    assert q % 8 == 0;
    w1 := AgainLeb(d, p0, p, w0, w);
    w1 := AgainBytes(d, p0, q, size, w0, w1);
  }
}
