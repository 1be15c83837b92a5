/**
  The flat sequence: every OBU in wire order, written and read with one registry threaded through the
  stream.
*/
module Sequences {
  import opened Core
  import opened Bits
  import opened Leb128
  import opened Obus
  import opened ParameterBlocks
  import opened SequenceObus

  /** The OBUs at `w`, each under the registry the ones before it built. */
  function WAll(w: BitSeq, registry: Registry, s: seq<SequenceObu>): Result<BitSeq>
    decreases |s|
  {
    if s == [] then Ok(w)
    else
      var w :- WSeqObu(w, registry, s[0]);
      WAll(w, Observe(registry, s[0]), s[1..])
  }

  /** `write_parsed_sequence`: nothing reaches the sink unless every OBU was written. */
  function WriteSequence(s: seq<SequenceObu>): Result<seq<u8>> {
    var w :- WAll([], [], s);
    if |w| % 8 != 0 then Err(NotByteAligned) else Ok(Pack(w))
  }

  /** What a reader run yields, how it ended, and where its cursor stands. */
  datatype Run = Run(items: seq<SequenceObu>, failure: Option<Error>, pos: nat)

  /** Every `next` of a `SequenceReader` until it yields nothing more. */
  function ReadAll(d: BitSeq, p: nat, registry: Registry): Run
    decreases |d| - p
  {
    if Remaining(d, p) == 0 then Run([], None, p)
    else
      match RSeqObu(d, p, registry)
      case Err(e) => Run([], Some(e), p)
      case Ok((o, q)) =>
        var rest := ReadAll(d, q, Observe(registry, o));
        rest.(items := [o] + rest.items)
  }

  /** `parse_sequence`: no prefix is returned on failure. */
  function ParseSequence(input: seq<u8>): Result<seq<SequenceObu>> {
    var run := ReadAll(BytesBits(input), 0, []);
    if run.failure.Some? then Err(run.failure.value) else Ok(run.items)
  }

  predicate AllWellFormed(registry: Registry, s: seq<SequenceObu>)
    decreases |s|
  {
    s == [] || (WellFormed(registry, s[0]) && AllWellFormed(Observe(registry, s[0]), s[1..]))
  }

  /** The first refusal along the sequence, if any. */
  function FirstRefusal(s: seq<SequenceObu>): (r: Result<()>)
    ensures r.Ok? <==> forall o | o in s :: Refusal(o).Ok?
  {
    if s == [] then Ok(())
    else
      var _ :- Refusal(s[0]);
      FirstRefusal(s[1..])
  }

  /**
    Every uleb128 that the reader decodes on its way through the input takes no more bytes than its value
    needs, `obu_size` fields included.
  */
  predicate AllMinimal(d: BitSeq, p: nat, registry: Registry)
    decreases |d| - p
  {
    if Remaining(d, p) == 0 then true
    else
      match RSeqObu(d, p, registry)
      case Err(_) => true
      case Ok((o, q)) => ObuMinimal(d, p, registry) && AllMinimal(d, q, Observe(registry, o))
  }

  // ------------------------------------------------------------ the flat round trip

  lemma {:induction false} WAllGrows(w: BitSeq, registry: Registry, s: seq<SequenceObu>)
    requires WAll(w, registry, s).Ok?
    ensures w <= WAll(w, registry, s).value
    decreases |s|
  {
    hide WSeqObu, Observe;
    if s != [] {
      WAllGrows(WSeqObu(w, registry, s[0]).value, Observe(registry, s[0]), s[1..]);
    }
  }

  lemma {:induction false} ReadsAllBack(w: BitSeq, registry: Registry, s: seq<SequenceObu>) returns (w1: BitSeq)
    requires |w| % 8 == 0 && WAll(w, registry, s).Ok? && AllWellFormed(registry, s)
    ensures w1 == WAll(w, registry, s).value && |w1| % 8 == 0
    ensures ReadAll(w1, |w|, registry) == Run(s, None, |w1|)
    decreases |s|
  {
    hide WSeqObu, RSeqObu, Observe, WellFormed;
    w1 := WAll(w, registry, s).value;
    if s != [] {
      var next := WSeqObu(w, registry, s[0]).value;
      WAllGrows(next, Observe(registry, s[0]), s[1..]);
      assert next <= w1;
      next := StepSeqObu(w, registry, s[0], w1);
      var _ := ReadsAllBack(next, Observe(registry, s[0]), s[1..]);
      assert [s[0]] + s[1..] == s;
    }
  }

  /** Whatever was read is well-formed along the way. */
  lemma {:induction false} ReadIsWellFormed(d: BitSeq, p: nat, registry: Registry)
    ensures AllWellFormed(registry, ReadAll(d, p, registry).items)
    decreases |d| - p
  {
    hide RSeqObu, Observe, WellFormed;
    if Remaining(d, p) != 0 && RSeqObu(d, p, registry).Ok? {
      var (o, q) := RSeqObu(d, p, registry).value;
      AgainSeqObu(d, p, registry, []);
      ReadIsWellFormed(d, q, Observe(registry, o));
      var rest := ReadAll(d, q, Observe(registry, o)).items;
      assert ([o] + rest)[1..] == rest;
    }
  }

  lemma {:induction false} WAllAligned(w: BitSeq, registry: Registry, s: seq<SequenceObu>)
    requires |w| % 8 == 0 && WAll(w, registry, s).Ok?
    ensures |WAll(w, registry, s).value| % 8 == 0
    decreases |s|
  {
    hide WSeqObu, Observe;
    if s != [] {
      var next := WSeqObu(w, registry, s[0]).value;
      SeqObuAligned(w, registry, s[0]);
      WAllAligned(next, Observe(registry, s[0]), s[1..]);
    }
  }

  /**
    The flat round trip, exactly: for every sequence the writer accepts, parsing its bytes gives the
    sequence back if and only if it is well-formed under the registries it builds.
  */
  lemma FlatRoundTrip(s: seq<SequenceObu>)
    requires WriteSequence(s).Ok?
    ensures ParseSequence(WriteSequence(s).value) == Ok(s) <==> AllWellFormed([], s)
  {
    hide WAll, ReadAll, AllWellFormed;
    var w := WAll([], [], s).value;
    PackRoundTrip(w);
    ReadIsWellFormed(w, 0, []);
    if AllWellFormed([], s) {
      var _ := ReadsAllBack([], [], s);
    }
  }

  /** The alignment test at the end never refuses: only an OBU can. */
  lemma WriteFailsOnlyOnAnObu(s: seq<SequenceObu>)
    ensures WriteSequence(s).Ok? <==> WAll([], [], s).Ok?
    ensures WriteSequence(s).Ok? ==> BytesBits(WriteSequence(s).value) == WAll([], [], s).value
  {
    hide WAll;
    if WAll([], [], s).Ok? {
      WAllAligned([], [], s);
      PackRoundTrip(WAll([], [], s).value);
    }
  }

  // ------------------------------------------------------------ canonicalisation

  lemma {:induction false} AgainAll(d: BitSeq, p0: nat, p: nat, registry: Registry, w0: BitSeq, w: BitSeq)
    requires |w| % 8 == 0 && Canon(d, p0, p, w0, w) && ReadAll(d, p, registry).failure.None?
    requires |d| % 8 == 0 && p % 8 == 0
    ensures var s := ReadAll(d, p, registry).items;
            && (FirstRefusal(s).Err? ==> WAll(w, registry, s) == Err(FirstRefusal(s).error))
            && (FirstRefusal(s).Ok? ==>
                  && WAll(w, registry, s).Ok?
                  && var w1 := WAll(w, registry, s).value;
                     Canon(d, p0, |d|, w0, w1) && Tight(|d| - p, |w1| - |w|, AllMinimal(d, p, registry)))
    decreases |d| - p
  {
    hide RSeqObu, WSeqObu, ObuMinimal, Observe, WellFormed, Refusal, Canon;
    if Remaining(d, p) == 0 {
      CanonEnd(d, p0, p, w0, w);
    } else {
      var (o, q) := RSeqObu(d, p, registry).value;
      AgainSeqObu(d, p, registry, w);
      SeqObuEndAligned(d, p, registry);
      var rest := ReadAll(d, q, Observe(registry, o)).items;
      assert ([o] + rest)[1..] == rest;
      if Refusal(o).Ok? {
        var next := WSeqObu(w, registry, o).value;
        SeqObuAligned(w, registry, o);
        CanonJoin(d, p0, p, q, w0, w, next);
        AgainAll(d, p0, q, Observe(registry, o), w0, next);
      }
    }
  }

  lemma CanonEnd(d: BitSeq, p0: nat, p: nat, w0: BitSeq, w: BitSeq)
    requires Canon(d, p0, p, w0, w) && Remaining(d, p) == 0 && |d| % 8 == 0 && p % 8 == 0
    ensures p == |d|
  {
  }

  /**
    Canonicalisation of foreign bytes: a sequence that was parsed is refused by the writer exactly for the
    first trim flag on a non-frame, forbidden redundant copy, or additional profile below the primary one.
    Otherwise the bytes written parse to the same sequence, so they are written again unchanged, and they
    are the bytes read if and only if every uleb128 in those was minimal; if one was not, they are fewer.
  */
  lemma Canonicalisation(b: seq<u8>)
    requires ParseSequence(b).Ok?
    ensures var s := ParseSequence(b).value;
            && (FirstRefusal(s).Err? ==> WriteSequence(s) == Err(FirstRefusal(s).error))
            && (FirstRefusal(s).Ok? ==>
                  && WriteSequence(s).Ok?
                  && var b1 := WriteSequence(s).value;
                     && ParseSequence(b1) == Ok(s)
                     && (b1 == b <==> AllMinimal(BytesBits(b), 0, []))
                     && (b1 != b ==> |b1| < |b|))
  {
    hide WAll, ReadAll, AllWellFormed, FirstRefusal, AllMinimal;
    var d := BytesBits(b);
    var s := ParseSequence(b).value;
    CanonStart(d, 0, []);
    AgainAll(d, 0, 0, [], [], []);
    ReadIsWellFormed(d, 0, []);
    WriteFailsOnlyOnAnObu(s);
    if FirstRefusal(s).Ok? {
      FlatRoundTrip(s);
      var b1 := WriteSequence(s).value;
      if |b1| == |b| {
        assert d[0..|d|] == d && BytesBits(b1)[0..] == BytesBits(b1);
        PackOfBytes(b);
        PackOfBytes(b1);
      }
    }
  }

  /** So every byte string the writer makes of a well-formed sequence is minimal throughout. */
  lemma WrittenIsMinimal(s: seq<SequenceObu>)
    requires WriteSequence(s).Ok? && AllWellFormed([], s)
    ensures AllMinimal(BytesBits(WriteSequence(s).value), 0, [])
  {
    hide *;
    FlatRoundTrip(s);
    Canonicalisation(WriteSequence(s).value);
  }

  /** A temporal delimiter, type 4 with no flags, whose size of zero is padded to two bytes. */
  const PADDED_DELIMITER: seq<u8> := [0x20, 0x80, 0x00]

  function BareDelimiter(): SequenceObu {
    Delimiter(Obu(ObuHeader.New(TemporalDelimiterObu), (), []))
  }

  /** Its first byte: five bits of type, three flags. */
  lemma DelimiterByte()
    ensures WFlags([], BareDelimiter().Header()) == Ok(BitsOf(0x20, 8))
  {
    hide WFlags;
    var w: BitSeq := [false, false, true, false, false];
    assert BitsOf(0x20, 8) == w + [false] + [false] + [false];
    assert BitsOf(4, 5) == w == [] + w;
    DelimiterFlags(w);
  }

  lemma DelimiterFlags(w: BitSeq)
    requires BitsOf(4, 5) == w == [] + w
    ensures WFlags([], BareDelimiter().Header()) == Ok(w + [false] + [false] + [false])
  {
    hide BitsOf;
    PowersOfTwo();
  }

  lemma PaddedBits() returns (w: BitSeq)
    ensures w == BitsOf(0x20, 8)
    ensures BytesBits(PADDED_DELIMITER) == WLebFixed(w, 0, 2).value
    ensures BytesBits([0x20, 0x00]) == WLeb(w, 0)
  {
    hide BitsOf, BytesBits;
    w := BitsOf(0x20, 8);
    FirstBits(PADDED_DELIMITER);
    FirstBits(PADDED_DELIMITER[1..]);
    FirstBits([0x20, 0x00]);
    assert [0x20, 0x00][1..] == [0x00];
    assert PADDED_DELIMITER[1..][1..] == [0x00];
    LastByte();
    assert LebBits(0, 2) == BitsOf(0x80, 8) + BitsOf(0, 8);
  }

  lemma LastByte()
    ensures BytesBits([0x00]) == BitsOf(0, 8)
  {
    hide BitsOf;
    assert [0x00][..0] == [];
    assert [] + BitsOf(0, 8) == BitsOf(0, 8);
  }

  lemma PaddedReads(w: BitSeq, d: BitSeq)
    requires WFlags([], BareDelimiter().Header()) == Ok(w) && d == WLebFixed(w, 0, 2).value
    ensures RSeqObu(d, 0, []) == Ok((BareDelimiter(), |d|))
  {
    hide RFlags, RLeb, WFlags;
    var h := BareDelimiter().Header();
    var _ := StepFlags([], h, d);
    var _ := StepLebFixed(w, 0, 2, d);
    assert RSizedFlags(d, 0) == Ok((h.obuType, false, false, false, 0, |d|));
    assert RWindow(d, 0) == Ok((h, [], |d|));
  }

  lemma BareWrites(w: BitSeq)
    requires WFlags([], BareDelimiter().Header()) == Ok(w)
    ensures WSeqObu([], [], BareDelimiter()) == Ok(WLeb(w, 0))
  {
    hide WFlags, WLeb;
    assert BytesBits([]) == [];
    assert WAfterSize([], BareDelimiter().Header()) == Ok([]);
    assert WLeb(w, 0) + [] + [] == WLeb(w, 0);
  }

  /** So there are bytes that parse and are not written again: the padding of `obu_size` is lost. */
  lemma PaddingIsLost()
    ensures ParseSequence(PADDED_DELIMITER) == Ok([BareDelimiter()])
    ensures WriteSequence([BareDelimiter()]) == Ok([0x20, 0x00])
    ensures !AllMinimal(BytesBits(PADDED_DELIMITER), 0, [])
  {
    hide RSeqObu, WSeqObu, AllMinimal, BareDelimiter, BytesBits, Pack, WLeb, WLebFixed, WFlags;
    hide BitsOf;
    var w := PaddedBits();
    DelimiterByte();
    PaddedReads(w, BytesBits(PADDED_DELIMITER));
    BareWrites(w);
    PackOfBytes([0x20, 0x00]);
    assert [BareDelimiter()] + [] == [BareDelimiter()];
    Canonicalisation(PADDED_DELIMITER);
  }

  // ------------------------------------------------------------ locality

  lemma {:induction false} ReadAdvances(d: BitSeq, p: nat, registry: Registry)
    requires p <= |d|
    ensures var run := ReadAll(d, p, registry); p + 16 * |run.items| <= run.pos <= |d|
    decreases |d| - p
  {
    hide RSeqObu, Observe;
    if Remaining(d, p) != 0 && RSeqObu(d, p, registry).Ok? {
      var (o, q) := RSeqObu(d, p, registry).value;
      ReadAdvances(d, q, Observe(registry, o));
    }
  }

  /** From `p0` and `registry0`, reading `items` leads to `p` and `registry`. */
  predicate Reaches(
      d: BitSeq, p0: nat, registry0: Registry, p: nat, registry: Registry, items: seq<SequenceObu>)
    decreases |items|
  {
    if items == [] then p == p0 && registry == registry0
    else
      && Remaining(d, p0) != 0 && RSeqObu(d, p0, registry0).Ok?
      && var (o, q) := RSeqObu(d, p0, registry0).value;
         o == items[0] && Reaches(d, q, Observe(registry0, o), p, registry, items[1..])
  }

  lemma {:induction false} ReachesNext(
      d: BitSeq, p0: nat, registry0: Registry, p: nat, registry: Registry, items: seq<SequenceObu>)
    requires Reaches(d, p0, registry0, p, registry, items)
    requires Remaining(d, p) != 0 && RSeqObu(d, p, registry).Ok?
    ensures var (o, q) := RSeqObu(d, p, registry).value;
            Reaches(d, p0, registry0, q, Observe(registry, o), items + [o])
    decreases |items|
  {
    hide RSeqObu, Observe;
    var (o, q) := RSeqObu(d, p, registry).value;
    if items == [] {
      assert [] + [o] == [o] && [o][1..] == [];
    } else {
      var (first, next) := RSeqObu(d, p0, registry0).value;
      ReachesNext(d, next, Observe(registry0, first), p, registry, items[1..]);
      assert (items + [o])[1..] == items[1..] + [o];
    }
  }

  /** The run is what was read so far and then the run from there. */
  lemma {:induction false} ReachesReads(
      d: BitSeq, p0: nat, registry0: Registry, p: nat, registry: Registry, items: seq<SequenceObu>)
    requires Reaches(d, p0, registry0, p, registry, items) && p0 % 8 == 0 && p0 <= |d|
    ensures p0 <= p <= |d| && p % 8 == 0
    ensures var rest := ReadAll(d, p, registry); ReadAll(d, p0, registry0) == rest.(items := items + rest.items)
    decreases |items|
  {
    hide RSeqObu, Observe;
    if items == [] {
      assert [] + ReadAll(d, p, registry).items == ReadAll(d, p, registry).items;
    } else {
      var (o, q) := RSeqObu(d, p0, registry0).value;
      SeqObuEndAligned(d, p0, registry0);
      ReachesReads(d, q, Observe(registry0, o), p, registry, items[1..]);
      var rest := ReadAll(d, p, registry).items;
      assert items + rest == [o] + (items[1..] + rest);
    }
  }

  /** The input cut where the cursor stands is a whole sequence. */
  lemma {:induction false} ReachesParses(
      d: BitSeq, p0: nat, registry0: Registry, p: nat, registry: Registry, items: seq<SequenceObu>, d1: BitSeq)
    requires Reaches(d, p0, registry0, p, registry, items) && p0 % 8 == 0 && p0 <= |d|
    requires p <= |d| && d1 == d[..p]
    ensures ReadAll(d1, p0, registry0) == Run(items, None, p)
    decreases |items|
  {
    hide RSeqObu, Observe;
    if items != [] {
      var (o, q) := RSeqObu(d, p0, registry0).value;
      SeqObuEndAligned(d, p0, registry0);
      ReachesReads(d, q, Observe(registry0, o), p, registry, items[1..]);
      assert d1[p0..q] == d[p0..q];
      SeqObuLocal(d, d1, p0, registry0);
      ReachesParses(d, q, Observe(registry0, o), p, registry, items[1..], d1);
    }
  }

  lemma {:induction false} RunReaches(d: BitSeq, p: nat, registry: Registry) returns (last: Registry)
    ensures Reaches(d, p, registry, ReadAll(d, p, registry).pos, last, ReadAll(d, p, registry).items)
    decreases |d| - p
  {
    hide RSeqObu, Observe;
    last := registry;
    if Remaining(d, p) != 0 && RSeqObu(d, p, registry).Ok? {
      var (o, q) := RSeqObu(d, p, registry).value;
      last := RunReaches(d, q, Observe(registry, o));
      assert ([o] + ReadAll(d, q, Observe(registry, o)).items)[1..] == ReadAll(d, q, Observe(registry, o)).items;
    }
  }

  lemma BitsOfPrefix(b: seq<u8>, k: nat)
    requires k <= |b|
    ensures BytesBits(b[..k]) == BytesBits(b)[..8 * k]
  {
    hide BytesBits;
    BytesBitsConcat(b[..k], b[k..]);
    assert b[..k] + b[k..] == b;
  }

  /** Wherever a reader of the bytes `b` stands, the bytes before it parse to exactly the items it has read. */
  lemma PrefixParses(b: seq<u8>, p: nat, registry: Registry, items: seq<SequenceObu>)
    requires Reaches(BytesBits(b), 0, [], p, registry, items)
    ensures p % 8 == 0 && p / 8 <= |b| && ParseSequence(b[..p / 8]) == Ok(items)
  {
    hide ReadAll, Reaches, BytesBits;
    var d := BytesBits(b);
    ReachesReads(d, 0, [], p, registry, items);
    BitsOfPrefix(b, p / 8);
    ReachesParses(d, 0, [], p, registry, items, d[..p]);
  }

  /**
    A run of the reader ends at a whole byte, after a failure at the start of the failing OBU, and the bytes
    before that are a whole sequence: they parse to the items already yielded.
  */
  lemma FailureLeavesAPrefix(b: seq<u8>)
    ensures var run := ReadAll(BytesBits(b), 0, []);
            run.pos % 8 == 0 && run.pos / 8 <= |b| && ParseSequence(b[..run.pos / 8]) == Ok(run.items)
  {
    hide ReadAll, ParseSequence, Reaches, BytesBits;
    var run := ReadAll(BytesBits(b), 0, []);
    var last := RunReaches(BytesBits(b), 0, []);
    PrefixParses(b, run.pos, last, run.items);
  }
}
