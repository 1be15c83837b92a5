/** What a stream holds of what it was given: each descriptor, block and frame, whole and at its place. */
module Carrying {
  import opened Core
  import opened Obus
  import opened ParameterBlocks
  import opened SequenceHeaders
  import opened CodecConfigs
  import opened AudioElements
  import opened MixPresentations
  import opened AudioFrames
  import opened SequenceObus
  import opened Sorting
  import opened Parts
  import opened Streams
  import opened TrimPlans
  import opened Declarations
  import opened TemporalInputs
  import opened Timelines
  import opened FrameRules

  // -------------------------------------------------------------------- single OBUs

  /** A header of this type with no flag, no trims and no extension. */
  predicate Plain(h: ObuHeader, code: nat) {
    && h.obuType.Value() == code && !h.obuType.ReservedObu? && !h.redundantCopy
    && h.typeSpecific.NoTypeSpecific? && h.extension.None?
  }

  /** The descriptor is the payload, and its trailing bytes follow it. */
  predicate HoldsHeader(o: SequenceObu, v: IaSequenceHeader) {
    o.IaHeader? && Plain(o.ia.header, 31) && o.ia.payload == v.(trailing := []) && o.ia.trailing == v.trailing
  }

  predicate HoldsCodec(o: SequenceObu, v: CodecConfig) {
    o.Codec? && Plain(o.codec.header, 0) && o.codec.payload == v.(trailing := []) && o.codec.trailing == v.trailing
  }

  predicate HoldsElement(o: SequenceObu, v: AudioElement) {
    && o.Element? && Plain(o.element.header, 1)
    && o.element.payload == v.(trailing := []) && o.element.trailing == v.trailing
  }

  predicate HoldsMix(o: SequenceObu, v: MixPresentation) {
    o.Mix? && Plain(o.mix.header, 2) && o.mix.payload == v.(trailing := []) && o.mix.trailing == v.trailing
  }

  predicate HoldsBlock(o: SequenceObu, b: ParameterBlock) {
    o.Block? && Plain(o.block.header, 3) && o.block.payload == b && o.block.trailing == []
  }

  /** A frame of substream `id`, of a type of its own while there is one, with the trims of its unit. */
  predicate HoldsFrame(o: SequenceObu, id: nat, bytes: seq<u8>, t: Option<Trimming>) {
    && o.Frame?
    && o.frame.payload.substreamId == id && o.frame.payload.payload == bytes && o.frame.trailing == []
    && var h := o.frame.header;
       && h.obuType.Value() == (if id <= 17 then 6 + id else 5) && !h.obuType.ReservedObu?
       && !h.redundantCopy && h.typeSpecific == TrimmingField(t) && h.extension.None?
  }

  // ---------------------------------------------------------------------- the prologue

  /** Where a descriptor belongs: by kind, and then by its own id, except for presentations. */
  function Rank(o: SequenceObu): (nat, nat) {
    match o
    case IaHeader(_) => (0, 0)
    case Codec(c) => (1, c.payload.codecConfigId)
    case Element(e) => (2, e.payload.audioElementId)
    case Mix(_) => (3, 0)
    case _ => (4, 0)
  }

  predicate NotAfter(a: (nat, nat), b: (nat, nat)) {
    a.0 < b.0 || (a.0 == b.0 && a.1 <= b.1)
  }

  predicate InOrder(s: seq<SequenceObu>) {
    forall i, j | 0 <= i < j < |s| :: NotAfter(Rank(s[i]), Rank(s[j]))
  }

  /** In order, and of the kinds from `low` up to below `high`. */
  predicate Stretch(s: seq<SequenceObu>, low: nat, high: nat) {
    InOrder(s) && forall i | 0 <= i < |s| :: low <= Rank(s[i]).0 < high
  }

  lemma StretchesJoin(a: seq<SequenceObu>, b: seq<SequenceObu>, low: nat, middle: nat, high: nat)
    requires Stretch(a, low, middle) && Stretch(b, middle, high) && low <= middle <= high
    ensures Stretch(a + b, low, high)
  {
    hide Rank;
    var s := a + b;
    forall i, j | 0 <= i < j < |s| ensures NotAfter(Rank(s[i]), Rank(s[j])) {
      assert s[i] == if i < |a| then a[i] else b[i - |a|];
      assert s[j] == if j < |a| then a[j] else b[j - |a|];
    }
  }

  lemma KindsInOrder(set_: DescriptorSet)
    ensures Stretch(Map(FlatCodec, SortedCodecs(set_)), 1, 2)
    ensures Stretch(Map(FlatElement, SortedElements(set_)), 2, 3)
    ensures Stretch(Map(FlatMix, set_.mixPresentations), 3, 4)
    ensures Stretch([FlatHeader(set_.sequenceHeader)], 0, 1)
  {
    hide Sorted, Map;
    SortedIsStable(set_.codecConfigs, (c: CodecConfig) => c.codecConfigId, 0);
    SortedIsStable(set_.audioElements, (e: AudioElement) => e.audioElementId, 0);
  }

  predicate CodecIn(s: seq<SequenceObu>, c: CodecConfig) {
    exists i | 0 <= i < |s| :: HoldsCodec(s[i], c)
  }

  predicate ElementIn(s: seq<SequenceObu>, e: AudioElement) {
    exists i | 0 <= i < |s| :: HoldsElement(s[i], e)
  }

  lemma EachIsThere(set_: DescriptorSet)
    ensures forall c | c in set_.codecConfigs :: CodecIn(Map(FlatCodec, SortedCodecs(set_)), c)
    ensures forall e | e in set_.audioElements :: ElementIn(Map(FlatElement, SortedElements(set_)), e)
  {
    hide Sorted, Map;
    var a, b := Map(FlatCodec, SortedCodecs(set_)), Map(FlatElement, SortedElements(set_));
    SortedIsStable(set_.codecConfigs, (c: CodecConfig) => c.codecConfigId, 0);
    SortedIsStable(set_.audioElements, (e: AudioElement) => e.audioElementId, 0);
    forall c | c in set_.codecConfigs ensures CodecIn(a, c) {
      var k :| 0 <= k < |a| && SortedCodecs(set_)[k] == c;
      assert HoldsCodec(a[k], c);
    }
    forall e | e in set_.audioElements ensures ElementIn(b, e) {
      var k :| 0 <= k < |b| && SortedElements(set_)[k] == e;
      assert HoldsElement(b[k], e);
    }
  }

  lemma InLonger(a: seq<SequenceObu>, b: seq<SequenceObu>, c: seq<SequenceObu>)
    ensures forall v :: CodecIn(b, v) ==> CodecIn(a + b + c, v)
    ensures forall v :: ElementIn(b, v) ==> ElementIn(a + b + c, v)
  {
    hide HoldsCodec, HoldsElement;
    var s := a + b + c;
    forall v | CodecIn(b, v) ensures CodecIn(s, v) {
      var i :| 0 <= i < |b| && HoldsCodec(b[i], v);
      assert s[|a| + i] == b[i];
    }
    forall v | ElementIn(b, v) ensures ElementIn(s, v) {
      var i :| 0 <= i < |b| && HoldsElement(b[i], v);
      assert s[|a| + i] == b[i];
    }
  }

  function PrologueSize(set_: DescriptorSet): nat {
    1 + |set_.codecConfigs| + |set_.audioElements| + |set_.mixPresentations|
  }

  /** The header, the others by kind and id, each of them, and the presentations as they are listed. */
  predicate HoldsDescriptors(s: seq<SequenceObu>, set_: DescriptorSet) {
    && |s| == PrologueSize(set_) && InOrder(s) && HoldsHeader(s[0], set_.sequenceHeader)
    && (forall c | c in set_.codecConfigs :: CodecIn(s, c))
    && (forall e | e in set_.audioElements :: ElementIn(s, e))
    && forall k | 0 <= k < |set_.mixPresentations| ::
         HoldsMix(s[PrologueSize(set_) - |set_.mixPresentations| + k], set_.mixPresentations[k])
  }

  lemma PrologueHolds(set_: DescriptorSet)
    ensures HoldsDescriptors(FlatDescriptors(set_), set_)
  {
    hide Sorted, Map, InOrder, FlatCodec, FlatElement, CodecIn, ElementIn, Stretch;
    var h, a := [FlatHeader(set_.sequenceHeader)], Map(FlatCodec, SortedCodecs(set_));
    var b, c := Map(FlatElement, SortedElements(set_)), Map(FlatMix, set_.mixPresentations);
    KindsInOrder(set_);
    EachIsThere(set_);
    StretchesJoin(h, a, 0, 1, 2);
    StretchesJoin(h + a, b, 0, 2, 3);
    StretchesJoin(h + a + b, c, 0, 3, 4);
    assert InOrder(h + a + b + c) by { OfStretch(h + a + b + c); }
    InLonger(h, a, b + c);
    assert h + a + (b + c) == h + a + b + c;
    InLonger(h + a, b, c);
  }

  lemma OfStretch(s: seq<SequenceObu>)
    requires Stretch(s, 0, 4)
    ensures InOrder(s)
  {
  }

  // ------------------------------------------------------------------------- the units

  function Extent(input: TemporalUnitInput): nat {
    |input.parameterBlocks| + |input.frames|
  }

  /** From `at` on: the blocks as submitted, and then the frames, each of the substream of its handle. */
  predicate HoldsInput(s: seq<SequenceObu>, at: nat, input: TemporalUnitInput) {
    && at + Extent(input) <= |s|
    && (forall k | 0 <= k < |input.parameterBlocks| :: HoldsBlock(s[at + k], input.parameterBlocks[k].block))
    && forall k | 0 <= k < |input.frames| ::
         HoldsFrame(s[at + |input.parameterBlocks| + k], input.frames[k].0.index, input.frames[k].1.bytes,
                    input.trimming)
  }

  function Extents(inputs: seq<TemporalUnitInput>): nat {
    if inputs == [] then 0 else Extents(inputs[..|inputs| - 1]) + Extent(inputs[|inputs| - 1])
  }

  /** Every input in turn, from `start` on and up to the end. */
  predicate HoldsInputs(s: seq<SequenceObu>, start: nat, inputs: seq<TemporalUnitInput>) {
    && |s| == start + Extents(inputs)
    && forall k | 0 <= k < |inputs| :: HoldsInput(s, start + Extents(inputs[..k]), inputs[k])
  }

  lemma FrameHolds(id: u32, bytes: seq<u8>, t: Option<Trimming>)
    ensures HoldsFrame(FlatFrame(IntoObu(AudioFrame(id, bytes), t)), id, bytes, t)
  {
  }

  lemma UnitHolds(e: Encoder, progress: Progress, input: TemporalUnitInput)
    requires Built(e) && Preflight(e, progress, input).Ok?
    ensures var s := FlatUnit(Preflight(e, progress, input).value.0);
            |s| == Extent(input) && HoldsInput(s, 0, input)
  {
    hide Built, DeclaredSubstreams, FrameRule, TrimRule, HoldsFrame, IntoObu, FlatFrame, LowerFrames, StepTrim,
         CheckBlocks, CheckCoverage, FromDescriptors, Distinct;
    ShapedFramesPass(e, progress, input);
    var ids := DeclaredSubstreams(e);
    FramesOfUnit(e, input, ids);
    var unit := Preflight(e, progress, input).value.0;
    forall k | 0 <= k < |input.frames|
      ensures HoldsFrame(FlatFrame(unit.audioFrames[k]), input.frames[k].0.index, input.frames[k].1.bytes,
                         input.trimming)
    {
      FrameHolds(ids[k], input.frames[k].1.bytes, input.trimming);
    }
  }

  lemma HoldsInLonger(s: seq<SequenceObu>, at: nat, input: TemporalUnitInput, before: seq<SequenceObu>,
                      after: seq<SequenceObu>)
    requires HoldsInput(s, at, input)
    ensures HoldsInput(before + s + after, |before| + at, input)
  {
    hide HoldsBlock, HoldsFrame;
    var all := before + s + after;
    assert forall i | 0 <= i < |s| :: all[|before| + i] == s[i];
  }

  lemma {:induction false} UnitsHold(e: Encoder, inputs: seq<TemporalUnitInput>)
    requires Built(e) && AcceptAll(e, inputs).Ok?
    ensures HoldsInputs(FlatUnits(AcceptAll(e, inputs).value.0), 0, inputs)
  {
    hide Built, Preflight, FlatUnit, HoldsInput, Extent;
    if inputs != [] {
      var init, last := inputs[..|inputs| - 1], inputs[|inputs| - 1];
      UnitsHold(e, init);
      var (units, progress) := AcceptAll(e, init).value;
      var unit := Preflight(e, progress, last).value.0;
      UnitHolds(e, progress, last);
      UnitsSnoc(units, unit);
      var s, t := FlatUnits(units), FlatUnit(unit);
      HoldsInLonger(t, 0, last, s, []);
      assert s + t + [] == s + t;
      forall k | 0 <= k < |init| ensures HoldsInput(s + t, Extents(inputs[..k]), inputs[k]) {
        HoldsInLonger(s, Extents(init[..k]), init[k], [], t);
        assert [] + s + t == s + t && init[..k] == inputs[..k];
      }
    }
  }

  /**
    The flat sequence of an accepted run: first the descriptors, and then, input by input with nothing between,
    the blocks and the frames as they were submitted.
  */
  predicate Carries(s: seq<SequenceObu>, set_: DescriptorSet, inputs: seq<TemporalUnitInput>) {
    && PrologueSize(set_) <= |s| && HoldsDescriptors(s[..PrologueSize(set_)], set_)
    && HoldsInputs(s, PrologueSize(set_), inputs)
  }

  lemma RunCarries(e: Encoder, inputs: seq<TemporalUnitInput>)
    requires Built(e) && AcceptAll(e, inputs).Ok?
    ensures Carries(FromParts(e.descriptors, AcceptAll(e, inputs).value.0), e.descriptors, inputs)
  {
    hide Built, AcceptAll, FlatDescriptors, FlatUnits, HoldsInput, Extents;
    PrologueHolds(e.descriptors);
    UnitsHold(e, inputs);
    var a, b := FlatDescriptors(e.descriptors), FlatUnits(AcceptAll(e, inputs).value.0);
    assert |a| == PrologueSize(e.descriptors) && (a + b)[..|a|] == a;
    forall k | 0 <= k < |inputs| ensures HoldsInput(a + b, |a| + Extents(inputs[..k]), inputs[k]) {
      HoldsInLonger(b, 0 + Extents(inputs[..k]), inputs[k], a, []);
      assert a + b + [] == a + b;
    }
  }
}
