/**
  Which frames an encoder takes: for every temporal unit, what each substream may carry, and that frames of
  that kind are never refused.
*/
module FrameRules {
  import opened Core
  import opened Obus
  import opened ParamDefinitions
  import opened ParameterBlocks
  import opened CodecConfigs
  import opened AudioElements
  import opened AudioFrames
  import opened Streams
  import opened Findings
  import opened Declarations
  import opened Builds
  import opened BuildRules
  import opened TrimPlans
  import opened TemporalInputs
  import opened Timelines
  import opened Governance
  import Packing

  // ------------------------------------------------------------ declared substreams

  /** Every substream of every element, in element order. */
  function Listed(elements: seq<AudioElement>): seq<u32> {
    if elements == [] then [] else Listed(elements[..|elements| - 1]) + elements[|elements| - 1].audioSubstreamIds
  }

  /** Where `id` comes first. */
  function Place(ids: seq<u32>, id: u32): (p: nat)
    ensures p <= |ids|
    ensures id in ids <==> p < |ids|
    ensures id in ids ==> ids[p] == id && id !in ids[..p]
  {
    if ids == [] then 0 else if ids[0] == id then 0 else 1 + Place(ids[1..], id)
  }

  /** `ids` holds what `all` holds, once each, in the order of first appearance. */
  ghost predicate FirstAppearances(all: seq<u32>, ids: seq<u32>) {
    && (forall id :: id in ids <==> id in all)
    && forall m, n | 0 <= m < n < |ids| :: Place(all, ids[m]) < Place(all, ids[n])
  }

  lemma {:induction false} PlaceJoin(a: seq<u32>, b: seq<u32>, id: u32)
    ensures id in a ==> Place(a + b, id) == Place(a, id)
    ensures id !in a ==> Place(a + b, id) == |a| + Place(b, id)
  {
    if a == [] {
      assert a + b == b;
    } else {
      assert (a + b)[0] == a[0] && (a + b)[1..] == a[1..] + b;
      PlaceJoin(a[1..], b, id);
    }
  }

  lemma AppearsNext(all: seq<u32>, ids: seq<u32>, id: u32)
    requires FirstAppearances(all, ids)
    ensures FirstAppearances(all + [id], if id in ids then ids else ids + [id])
  {
    hide Place;
    var next := if id in ids then ids else ids + [id];
    forall m, n | 0 <= m < n < |next| ensures Place(all + [id], next[m]) < Place(all + [id], next[n]) {
      PlaceJoin(all, [id], next[m]);
      PlaceJoin(all, [id], next[n]);
      assert next[m] == ids[m] && ids[m] in ids;
      if n < |ids| {
        assert ids[n] in ids;
      }
    }
  }

  lemma {:induction false} AddNewAppears(all: seq<u32>, seen: seq<u32>, ids: seq<u32>)
    requires FirstAppearances(all, seen)
    ensures FirstAppearances(all + ids, AddNew(seen, ids))
    decreases |ids|
  {
    hide FirstAppearances;
    if ids == [] {
      assert all + ids == all;
    } else {
      AppearsNext(all, seen, ids[0]);
      AddNewAppears(all + [ids[0]], if ids[0] in seen then seen else seen + [ids[0]], ids[1..]);
      assert all + [ids[0]] + ids[1..] == all + ids;
    }
  }

  lemma {:induction false} ElementsAppear(done: seq<AudioElement>, rest: seq<AudioElement>, seen: seq<u32>)
    requires FirstAppearances(Listed(done), seen)
    ensures FirstAppearances(Listed(done + rest), SubstreamsFrom(rest, seen))
    decreases |rest|
  {
    hide FirstAppearances, AddNew;
    if rest == [] {
      assert done + rest == done;
    } else {
      AddNewAppears(Listed(done), seen, rest[0].audioSubstreamIds);
      assert (done + [rest[0]])[..|done|] == done;
      assert Listed(done + [rest[0]]) == Listed(done) + rest[0].audioSubstreamIds;
      ElementsAppear(done + [rest[0]], rest[1..], AddNew(seen, rest[0].audioSubstreamIds));
      assert done + [rest[0]] + rest[1..] == done + rest;
    }
  }

  /** A unit has a frame for each substream of its elements, in the order in which they first appear. */
  lemma DeclaredInOrder(e: Encoder)
    ensures FirstAppearances(Listed(e.descriptors.audioElements), DeclaredSubstreams(e))
  {
    ElementsAppear([], e.descriptors.audioElements, []);
    assert [] + e.descriptors.audioElements == e.descriptors.audioElements;
  }

  /** Substream `id` is number `j` of element `x`. */
  predicate IsSubstream(elements: seq<AudioElement>, x: nat, j: nat, id: u32) {
    x < |elements| && j < |elements[x].audioSubstreamIds| && elements[x].audioSubstreamIds[j] == id
  }

  lemma {:induction false} ListedSomewhere(elements: seq<AudioElement>, id: u32)
    ensures id in Listed(elements) <==> exists x: nat, j: nat :: IsSubstream(elements, x, j, id)
    decreases |elements|
  {
    if elements != [] {
      var n := |elements| - 1;
      ListedSomewhere(elements[..n], id);
      if x: nat, j: nat :| IsSubstream(elements[..n], x, j, id) {
        assert IsSubstream(elements, x, j, id);
      }
      if x: nat, j: nat :| IsSubstream(elements, x, j, id) {
        assert x == n || IsSubstream(elements[..n], x, j, id);
      }
      if id in elements[n].audioSubstreamIds {
        var j: nat :| j < |elements[n].audioSubstreamIds| && elements[n].audioSubstreamIds[j] == id;
        assert IsSubstream(elements, n, j, id);
      }
    }
  }

  // ---------------------------------------------------------------------- the rules

  predicate OfCodec(c: DecoderConfig, frame: FrameInput) {
    match c
    case Lpcm(_) => frame.LpcmInput?
    case Flac(_) => frame.FlacInput?
    case Opus(_) => frame.OpusInput?
    case AacLc(_) => frame.AacLcInput?
    case RawConfig(_, _) => false
  }

  /** The bytes of one channel of one LPCM frame. */
  function ChannelBytes(c: CodecConfig): nat
    requires c.decoderConfig.Lpcm?
  {
    c.numSamplesPerFrame * (c.decoderConfig.lpcm.sampleSize / 8)
  }

  /** An LPCM frame of substream `id` holds the channels that the substream carries in any element that has it. */
  predicate RightLength(c: CodecConfig, elements: seq<AudioElement>, id: u32, length: nat)
    requires c.decoderConfig.Lpcm?
  {
    forall x, j | 0 <= x < |elements| && 0 <= j < |elements[x].audioSubstreamIds| ::
      elements[x].audioSubstreamIds[j] == id ==> length == ChannelBytes(c) * Carried(elements[x], j)
  }

  predicate FrameRule(c: CodecConfig, elements: seq<AudioElement>, id: u32, frame: FrameInput) {
    && OfCodec(c.decoderConfig, frame)
    && (c.decoderConfig.Lpcm? ==> RightLength(c, elements, id, |frame.bytes|))
  }

  /** A frame for each declared substream, in order, behind its handle and of its codec. */
  predicate FramesShaped(e: Encoder, input: TemporalUnitInput)
    requires |e.descriptors.codecConfigs| == 1
  {
    var ids := DeclaredSubstreams(e);
    && |input.frames| == |ids|
    && forall k | 0 <= k < |ids| ::
         && input.frames[k].0 == SubstreamHandle(e.generation, ids[k])
         && FrameRule(e.descriptors.codecConfigs[0], e.descriptors.audioElements, ids[k], input.frames[k].1)
  }

  predicate TrimRule(samples: nat, t: Option<Trimming>) {
    t.Some? ==> t.value.atStart + t.value.atEnd <= samples
  }

  // -------------------------------------------------------------------------- proof

  /** What a build fixes for its frames. */
  ghost predicate Fixed(e: Encoder) {
    && |e.descriptors.codecConfigs| == 1 && CodecRules(e.descriptors.codecConfigs[0])
    && e.descriptors.codecConfigs[0].codecConfigId == 0
    && (forall x | 0 <= x < |e.descriptors.audioElements| :: ElementRules(e.descriptors.audioElements[x]))
    && SharedAsOne(e.descriptors.audioElements)
    && Distinct(DeclaredSubstreams(e)) && DeclaredSubstreams(e) != []
  }

  lemma BuiltIsFixed(e: Encoder)
    requires Built(e)
    ensures Fixed(e) && Ready(e)
  {
    hide Build, CodecRules, ElementRules, SharedAsOne, SetClean, DeclaredSubstreams, Ready, FromDescriptors, GainRules;
    var d :| Build(d).Ok? && Build(d).value.0 == e;
    BuildObeysTheRules(d);
    BuiltIsReady(e);
    ReadyBasics(e);
    CodecZero(d);
  }

  lemma CodecZero(d: Declared)
    requires Build(d).Ok? && |Build(d).value.0.descriptors.codecConfigs| == 1
    ensures Build(d).value.0.descriptors.codecConfigs[0].codecConfigId == 0
  {
    hide Build, Frozen, LowerElements, LowerMixes, Manifest, ResolveReferences;
    var r, _ := BuildFreezes(d);
    FrozenResolves(r);
  }

  lemma {:induction false} PositionIs(ids: seq<u32>, id: u32)
    ensures Position(ids, id) == if id in ids then Some(Place(ids, id)) else None
  {
    if ids != [] {
      PositionIs(ids[1..], id);
    }
  }

  /** The plan of a declared substream: the one codec, and what some element that has it says it carries. */
  lemma {:induction false} PlanIs(codecs: seq<CodecConfig>, elements: seq<AudioElement>, id: u32)
      returns (x: nat, j: nat)
    requires |codecs| == 1 && codecs[0].codecConfigId == 0
    requires forall x | 0 <= x < |elements| :: elements[x].codecConfigId == 0
    requires exists x: nat, j: nat :: IsSubstream(elements, x, j, id)
    ensures IsSubstream(elements, x, j, id)
    ensures SubstreamPlan(codecs, elements, id) == Ok((codecs[0], SubstreamChannels(elements[x], j)))
    decreases |elements|
  {
    hide SubstreamChannels;
    PositionIs(elements[0].audioSubstreamIds, id);
    if id in elements[0].audioSubstreamIds {
      x, j := 0, Place(elements[0].audioSubstreamIds, id);
    } else {
      var x0: nat, j0: nat :| IsSubstream(elements, x0, j0, id);
      assert IsSubstream(elements[1..], x0 - 1, j0, id);
      x, j := PlanIs(codecs, elements[1..], id);
      x := x + 1;
      assert IsSubstream(elements, x, j, id);
    }
  }

  /** All the elements that have the substream agree on what its frames take. */
  lemma OneLength(c: CodecConfig, elements: seq<AudioElement>, x: nat, j: nat, id: u32, length: nat)
    requires c.decoderConfig.Lpcm? && SharedAsOne(elements) && IsSubstream(elements, x, j, id)
    ensures RightLength(c, elements, id, length) <==> length == ChannelBytes(c) * Carried(elements[x], j)
  {
    hide Carried;
    forall y, k | 0 <= y < |elements| && 0 <= k < |elements[y].audioSubstreamIds|
                  && elements[y].audioSubstreamIds[k] == id
      ensures Carried(elements[y], k) == Carried(elements[x], j)
    {
      assert SameCarried(elements[x], j, elements[y], k);
    }
  }

  lemma Products(samples: nat, size: nat, channels: nat)
    ensures samples * channels * size == samples * size * channels
    ensures size > 0 ==> (samples * size * channels) % size == 0
  {
    assert samples * channels * size == samples * size * channels;
    if size > 0 {
      assert samples * size * channels == samples * channels * size;
      Multiple(samples * channels, size);
    }
  }

  lemma Multiple(n: nat, size: nat)
    requires size > 0
    ensures (n * size) % size == 0
  {
    Packing.SplitIndex(size, n, 0);
  }

  lemma FrameChecked(c: CodecConfig, elements: seq<AudioElement>, x: nat, j: nat, id: u32, frame: FrameInput)
    requires CodecRules(c) && SharedAsOne(elements) && IsSubstream(elements, x, j, id)
    ensures CheckFrame(c, SubstreamChannels(elements[x], j), frame).Ok? <==> FrameRule(c, elements, id, frame)
  {
    hide FlacRules, OpusRules, AacRules, RightLength, SharedAsOne, Carried, SubstreamChannels;
    CarriedIs(elements[x], j);
    if c.decoderConfig.Lpcm? {
      var size := c.decoderConfig.lpcm.sampleSize / 8;
      Products(c.numSamplesPerFrame, size, Carried(elements[x], j));
      OneLength(c, elements, x, j, id, |frame.bytes|);
    }
  }

  lemma FrameIsJudged(e: Encoder, k: nat, frame: (SubstreamHandle, FrameInput), t: Option<Trimming>)
    requires Fixed(e) && k < |DeclaredSubstreams(e)|
    ensures var id, c := DeclaredSubstreams(e)[k], e.descriptors.codecConfigs[0];
            LowerFrame(e, frame, id, t).Ok? <==>
            && frame.0 == SubstreamHandle(e.generation, id) && TrimRule(c.numSamplesPerFrame, t)
            && FrameRule(c, e.descriptors.audioElements, id, frame.1)
  {
    hide DeclaredSubstreams, SubstreamPlan, CheckFrame, FrameRule, IntoObu, CodecRules, SharedAsOne;
    var id, elements := DeclaredSubstreams(e)[k], e.descriptors.audioElements;
    DeclaredInOrder(e);
    ListedSomewhere(elements, id);
    assert id in DeclaredSubstreams(e);
    forall x | 0 <= x < |elements| ensures elements[x].codecConfigId == 0 {
      assert ElementRules(elements[x]);
    }
    var x, j := PlanIs(e.descriptors.codecConfigs, elements, id);
    FrameChecked(e.descriptors.codecConfigs[0], elements, x, j, id, frame.1);
  }

  lemma {:induction false} LowersFrom(e: Encoder, input: TemporalUnitInput, expected: seq<u32>, i: nat)
    requires |input.frames| == |expected| && i <= |expected|
    ensures LowerFrames(e, input, expected, i).Ok? <==>
            forall k | i <= k < |expected| :: LowerFrame(e, input.frames[k], expected[k], input.trimming).Ok?
    decreases |expected| - i
  {
    hide LowerFrame;
    if i < |expected| {
      LowersFrom(e, input, expected, i + 1);
    }
  }

  /** The tests on the frames of a unit, in the order the preflight makes them. */
  predicate FramesPass(e: Encoder, input: TemporalUnitInput) {
    && Distinct(Handles(input)) && |input.frames| == |DeclaredSubstreams(e)|
    && LowerFrames(e, input, DeclaredSubstreams(e), 0).Ok?
  }

  /**
    The frames of a unit pass every test of the preflight if and only if there is one for each declared
    substream, in order, behind its own handle, of the encoder's codec, and, for LPCM, of the frame size times
    the sample size times the channels that the substream carries; and if the unit's trims fit one frame.
  */
  lemma FramesJudged(e: Encoder, input: TemporalUnitInput)
    requires Built(e)
    ensures |e.descriptors.codecConfigs| == 1
    ensures FramesPass(e, input) <==>
            FramesShaped(e, input) && TrimRule(e.descriptors.codecConfigs[0].numSamplesPerFrame, input.trimming)
  {
    hide Built, Ready, DeclaredSubstreams, LowerFrame, FrameRule, ElementRules, CodecRules, SharedAsOne;
    BuiltIsFixed(e);
    var ids := DeclaredSubstreams(e);
    if |input.frames| == |ids| {
      LowersFrom(e, input, ids, 0);
      forall k | 0 <= k < |ids|
        ensures LowerFrame(e, input.frames[k], ids[k], input.trimming).Ok? <==>
                && input.frames[k].0 == SubstreamHandle(e.generation, ids[k])
                && TrimRule(e.descriptors.codecConfigs[0].numSamplesPerFrame, input.trimming)
                && FrameRule(e.descriptors.codecConfigs[0], e.descriptors.audioElements, ids[k], input.frames[k].1)
      {
        FrameIsJudged(e, k, input.frames[k], input.trimming);
      }
      if FramesShaped(e, input) {
        assert forall i, j | 0 <= i < j < |ids| :: Handles(input)[i] != Handles(input)[j];
      }
    }
  }

  /** So what is left for the preflight to refuse is the order of trims and the blocks. */
  lemma ShapedFramesPass(e: Encoder, progress: Progress, input: TemporalUnitInput)
    requires Built(e)
    ensures |e.descriptors.codecConfigs| == 1
    ensures Preflight(e, progress, input).Ok? ==>
              FramesShaped(e, input) && TrimRule(e.descriptors.codecConfigs[0].numSamplesPerFrame, input.trimming)
    ensures FramesShaped(e, input) && TrimRule(e.descriptors.codecConfigs[0].numSamplesPerFrame, input.trimming) ==>
              (Preflight(e, progress, input).Ok? <==>
                 var trims := StepTrim(FrameSize(e), OpusPreSkip(e), progress.trims, input.trimming);
                 var ids := CheckBlocks(e, FromDescriptors(e.descriptors), input.parameterBlocks, []);
                 trims.Ok? && ids.Ok? && CheckCoverage(progress.parameterIds, ids.value).Ok?)
  {
    hide Built, DeclaredSubstreams, LowerFrames, FramesShaped, TrimRule, StepTrim, CheckBlocks, CheckCoverage,
         FromDescriptors, Distinct;
    FramesJudged(e, input);
  }

  // ---------------------------------------------------------------- whole elements

  /** The bytes that the frames of `ids` hold, in all. */
  function HeldBytes(frames: seq<Obu<AudioFrame>>, ids: seq<u32>): nat {
    if ids == [] then 0
    else HeldBytes(frames, ids[..|ids| - 1]) + HeldBy(frames, ids[|ids| - 1])
  }

  /** The bytes of the first frame of substream `id`. */
  function HeldBy(frames: seq<Obu<AudioFrame>>, id: u32): nat {
    if frames == [] then 0
    else if frames[0].payload.substreamId == id then |frames[0].payload.payload|
    else HeldBy(frames[1..], id)
  }

  lemma {:induction false} FrameAt(frames: seq<Obu<AudioFrame>>, k: nat)
    requires k < |frames| && Distinct(SubstreamIds(frames))
    ensures HeldBy(frames, frames[k].payload.substreamId) == |frames[k].payload.payload|
  {
    if k > 0 {
      var ids := SubstreamIds(frames);
      assert ids[0] != ids[k];
      assert SubstreamIds(frames[1..]) == ids[1..];
      assert forall i, j | 0 <= i < j < |ids[1..]| :: ids[1..][i] == ids[i + 1] && ids[1..][j] == ids[j + 1];
      FrameAt(frames[1..], k - 1);
    }
  }

  /** Of the first `n` substreams of an element, the coupled ones carry two channels. */
  function CarriedBy(e: AudioElement, n: nat): nat {
    if n == 0 then 0 else CarriedBy(e, n - 1) + Carried(e, n - 1)
  }

  lemma {:induction false} CarriedSum(e: AudioElement, n: nat)
    requires ElementRules(e)
    ensures e.elementType.ChannelBased? ==>
              var coupled := e.elementType.layers[0].coupledSubstreamCount;
              CarriedBy(e, n) == n + if n <= coupled then n else coupled
    ensures !e.elementType.ChannelBased? ==> CarriedBy(e, n) == n
  {
    hide TopologyRules, Distinct;
    if e.elementType.ChannelBased? {
      OneLayerOnly(e);
    }
    if n > 0 {
      CarriedSum(e, n - 1);
    }
  }

  lemma OneLayerOnly(e: AudioElement)
    requires ElementRules(e) && e.elementType.ChannelBased?
    ensures |e.elementType.layers| == 1 && Row(e.elementType.layers[0].layout).Some?
    ensures var (channels, substreams, coupled) := Row(e.elementType.layers[0].layout).value;
            && |e.audioSubstreamIds| == substreams && e.elementType.layers[0].coupledSubstreamCount == coupled
            && channels == substreams + coupled && coupled <= substreams
  {
    hide Row;
    CountsAreTheTables(e.elementType.layers[0].layout);
  }

  /** How many channels the substreams of an element carry together. */
  function ElementChannels(e: AudioElement): nat {
    match e.elementType
    case ChannelBased(_, layers) =>
      if layers != [] && Row(layers[0].layout).Some? then Row(layers[0].layout).value.0 else 0
    case _ => |e.audioSubstreamIds|
  }

  lemma UnitLengths(e: Encoder, progress: Progress, input: TemporalUnitInput, id: u32)
    requires Built(e) && Preflight(e, progress, input).Ok? && id in DeclaredSubstreams(e)
    requires |e.descriptors.codecConfigs| == 1 && e.descriptors.codecConfigs[0].decoderConfig.Lpcm?
    ensures RightLength(e.descriptors.codecConfigs[0], e.descriptors.audioElements, id,
                        HeldBy(Preflight(e, progress, input).value.0.audioFrames, id))
  {
    hide Built, Ready, DeclaredSubstreams, Fixed, RightLength, StepTrim, CheckBlocks, CheckCoverage, FromDescriptors;
    hide LowerFrame, Distinct;
    BuiltIsFixed(e);
    ReadyBasics(e);
    ShapedFramesPass(e, progress, input);
    var ids := DeclaredSubstreams(e);
    FramesOfUnit(e, input, ids);
    var frames := Preflight(e, progress, input).value.0.audioFrames;
    var k: nat :| k < |ids| && ids[k] == id;
    FrameAt(frames, k);
    assert FrameRule(e.descriptors.codecConfigs[0], e.descriptors.audioElements, ids[k], input.frames[k].1);
  }

  /** The frames of the first `n` substreams of element `x`. */
  lemma {:induction false} FirstFrames(e: Encoder, frames: seq<Obu<AudioFrame>>, c: CodecConfig, x: nat, n: nat)
    requires x < |e.descriptors.audioElements| && n <= |e.descriptors.audioElements[x].audioSubstreamIds|
    requires c.decoderConfig.Lpcm?
    requires forall id | id in e.descriptors.audioElements[x].audioSubstreamIds ::
               RightLength(c, e.descriptors.audioElements, id, HeldBy(frames, id))
    ensures var element := e.descriptors.audioElements[x];
            HeldBytes(frames, element.audioSubstreamIds[..n]) == ChannelBytes(c) * CarriedBy(element, n)
  {
    hide Carried, HeldBy, ChannelBytes;
    var element := e.descriptors.audioElements[x];
    var ids := element.audioSubstreamIds;
    if n > 0 {
      FirstFrames(e, frames, c, x, n - 1);
      assert ids[..n][..n - 1] == ids[..n - 1] && ids[..n][n - 1] == ids[n - 1] && ids[n - 1] in ids;
      Spread(ChannelBytes(c), CarriedBy(element, n - 1), Carried(element, n - 1));
    }
  }

  lemma Spread(a: nat, b: nat, c: nat)
    ensures a * (b + c) == a * b + a * c
  {
  }

  /** The LPCM frames that an accepted unit has for one element hold each of the element's channels for one frame. */
  lemma LpcmFramesFill(e: Encoder, progress: Progress, input: TemporalUnitInput, x: nat)
    requires Built(e) && Preflight(e, progress, input).Ok? && x < |e.descriptors.audioElements|
    ensures |e.descriptors.codecConfigs| == 1
    ensures var c, element := e.descriptors.codecConfigs[0], e.descriptors.audioElements[x];
            c.decoderConfig.Lpcm? ==>
              HeldBytes(Preflight(e, progress, input).value.0.audioFrames, element.audioSubstreamIds) ==
              c.numSamplesPerFrame * (c.decoderConfig.lpcm.sampleSize / 8) * ElementChannels(element)
    ensures var element := e.descriptors.audioElements[x];
            element.elementType.ChannelBased? ==>
              |element.elementType.layers| == 1 &&
              element.elementType.layers[0].layout.ChannelCount() == Some(ElementChannels(element))
  {
    hide Built, Preflight, Ready, DeclaredSubstreams, RightLength, HeldBy, CarriedBy, CodecRules, SharedAsOne;
    BuiltIsFixed(e);
    var c, element := e.descriptors.codecConfigs[0], e.descriptors.audioElements[x];
    var ids := element.audioSubstreamIds;
    assert ElementRules(element);
    if element.elementType.ChannelBased? {
      OneLayerOnly(element);
      CountsAreTheTables(element.elementType.layers[0].layout);
    }
    if c.decoderConfig.Lpcm? {
      var frames := Preflight(e, progress, input).value.0.audioFrames;
      DeclaredInOrder(e);
      forall id | id in ids ensures RightLength(c, e.descriptors.audioElements, id, HeldBy(frames, id)) {
        var j: nat :| j < |ids| && ids[j] == id;
        assert IsSubstream(e.descriptors.audioElements, x, j, id);
        ListedSomewhere(e.descriptors.audioElements, id);
        UnitLengths(e, progress, input, id);
      }
      FirstFrames(e, frames, c, x, |ids|);
      assert ids[..|ids|] == ids;
      CarriedSum(element, |ids|);
    }
  }

  // ------------------------------------------------------------------------- blocks

  /** A duration of its own, and not zero. */
  predicate Lasts(s: Subblock) {
    s.duration.Some? && s.duration.value > 0
  }

  /** A block of an accepted unit: mix gains of the parameter of its handle, whose subblocks fill one frame. */
  predicate BlockRule(e: Encoder, definition: ParamDefinition, submitted: SubmittedBlock, samples: nat) {
    var b := submitted.block;
    && submitted.parameter == ParameterHandle(e.generation, b.parameterId)
    && definition.parameterId == b.parameterId && |b.subblocks| < 0x1_0000_0000
    && (forall n | 0 <= n < |b.subblocks| :: b.subblocks[n].data.MixGain?)
    && match b.durationFields
       case Some(fields) =>
         && definition.durationFields.None? && fields.duration == samples && b.subblocks != []
         && (fields.constantSubblockDuration == 0 ==>
               && DurationSum(b.subblocks) == samples
               && forall n | 0 <= n < |b.subblocks| :: Lasts(b.subblocks[n]))
         && (fields.constantSubblockDuration > 0 ==>
               && Fills(|b.subblocks|, fields.constantSubblockDuration, samples)
               && forall n | 0 <= n < |b.subblocks| :: b.subblocks[n].duration.None?)
       case None =>
         && definition.durationFields.Some?
         && (forall n | 0 <= n < |b.subblocks| :: b.subblocks[n].duration.None?)
         && var fields := definition.durationFields.value;
            && fields.duration == samples
            && if fields.constantSubblockDuration == 0 then |b.subblocks| == |fields.subblockDurations|
               else Fills(|b.subblocks|, fields.constantSubblockDuration, samples)
  }

  lemma TimedAlike(definition: ParamDefinition, context: Context, block: ParameterBlock)
    requires ValidateParameterBlock(definition, context, block).Ok?
    ensures forall n | 0 <= n < |block.subblocks| :: block.subblocks[n].duration.Some? <==> Timed(block)
    ensures block.parameterId == definition.parameterId && (block.durationFields.Some? <==> definition.Mode())
    ensures |block.subblocks| < 0x1_0000_0000
  {
    hide KindMatches, ExpectedCount, CheckSingleSubblock;
    forall n | 0 <= n < |block.subblocks| ensures block.subblocks[n].duration.Some? <==> Timed(block) {
      assert block.subblocks[n] in block.subblocks;
    }
  }

  /** What the checks of one block are, once it has passed them. */
  lemma BlockIsChecked(e: Encoder, definitions: Registry, submitted: SubmittedBlock, seen: seq<u32>)
    requires CheckBlock(e, definitions, submitted, seen).Ok? && GainsOfOneFrame(definitions, FrameSize(e))
    ensures var block, governing := submitted.block, Get(definitions, submitted.block.parameterId);
            && governing.Some? && governing.value.context.MixGainContext?
            && ValidateParameterBlock(governing.value.definition, governing.value.context, block).Ok?
            && CheckSubmitted(governing.value.definition, block).Ok?
            && submitted.parameter == ParameterHandle(e.generation, block.parameterId)
            && (governing.value.definition.Mode() && block.durationFields.Some? ==>
                  Some(block.durationFields.value.duration) == FrameSize(e))
            && (!governing.value.definition.Mode() ==>
                  Some(governing.value.definition.durationFields.value.duration) == FrameSize(e))
  {
    hide ValidateParameterBlock, FrameSize, CheckSubmitted;
    CheckedBlock(e, definitions, submitted, seen);
  }

  lemma BlockIsJudged(e: Encoder, definitions: Registry, submitted: SubmittedBlock, seen: seq<u32>)
    requires CheckBlock(e, definitions, submitted, seen).Ok? && GainsOfOneFrame(definitions, FrameSize(e))
    requires FrameSize(e).Some?
    ensures var governing := Get(definitions, submitted.block.parameterId);
            governing.Some? && BlockRule(e, governing.value.definition, submitted, FrameSize(e).value)
  {
    hide ValidateParameterBlock, KindMatches, Fills, FrameSize, CheckBlock, GainsOfOneFrame, Get;
    BlockIsChecked(e, definitions, submitted, seen);
    var block := submitted.block;
    var Registered(definition, context) := Get(definitions, block.parameterId).value;
    ValidKinds(definition, context, block);
    AreGains(context, block);
    SubblocksFill(definition, context, block);
    TimedAlike(definition, context, block);
    if definition.Mode() && Timed(block) {
      forall n | 0 <= n < |block.subblocks| ensures Lasts(block.subblocks[n]) {
        assert block.subblocks[n] in block.subblocks;
      }
    }
  }

  lemma AreGains(context: Context, block: ParameterBlock)
    requires context.MixGainContext?
    requires forall n | 0 <= n < |block.subblocks| :: KindMatches(context, block.subblocks[n].data)
    ensures forall n | 0 <= n < |block.subblocks| :: block.subblocks[n].data.MixGain?
  {
  }

  /** Every block of every accepted unit. */
  lemma BlocksObey(e: Encoder, progress: Progress, input: TemporalUnitInput, k: nat)
    requires Built(e) && Preflight(e, progress, input).Ok? && k < |input.parameterBlocks|
    ensures FrameSize(e).Some?
    ensures var submitted := input.parameterBlocks[k];
            var governing := Get(FromDescriptors(e.descriptors), submitted.block.parameterId);
            governing.Some? && BlockRule(e, governing.value.definition, submitted, FrameSize(e).value)
  {
    hide Built, Ready, Preflight, FromDescriptors, BlockRule, CheckBlock, GainsOfOneFrame, FrameSize;
    hide DeclaredSubstreams;
    BuiltIsReady(e);
    ReadyBasics(e);
    UnitFacts(e, progress, input);
    var definitions := FromDescriptors(e.descriptors);
    assert Passed(e, definitions, input.parameterBlocks[k]);
    var before :| CheckBlock(e, definitions, input.parameterBlocks[k], before).Ok?;
    BlockIsJudged(e, definitions, input.parameterBlocks[k], before);
  }
}
