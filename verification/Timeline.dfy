/**
  What a built encoder guarantees over every run of accepted units: one parameter timeline, one frame per
  substream and unit, the trims of an allowed plan, and a flat sequence that reads back.
*/
module Timelines {
  import opened Core
  import opened Obus
  import opened ParameterBlocks
  import opened SequenceHeaders
  import opened CodecConfigs
  import opened AudioElements
  import opened MixPresentations
  import opened AudioFrames
  import opened SequenceObus
  import opened Sequences
  import opened Sorting
  import opened Parts
  import opened Streams
  import opened Ceilings
  import opened Profiles
  import opened Findings
  import opened TrimPlans
  import opened Declarations
  import opened Builds
  import opened TemporalInputs

  /** An encoder is only ever the result of a build. */
  ghost predicate Built(e: Encoder) {
    hide Build;
    exists d :: Build(d).Ok? && Build(d).value.0 == e
  }

  // ------------------------------------------------------------- what a build fixes

  /** The facts about its descriptors that a run relies on. */
  ghost predicate Ready(e: Encoder) {
    && |e.descriptors.codecConfigs| == 1
    && e.descriptors.codecConfigs[0].numSamplesPerFrame > 0
    && Typed(e.descriptors.codecConfigs[0].codecId, e.descriptors.codecConfigs[0].decoderConfig)
    && !e.descriptors.codecConfigs[0].decoderConfig.RawConfig?
    && DeclaredSubstreams(e) != [] && Distinct(DeclaredSubstreams(e))
    && GainsOfOneFrame(FromDescriptors(e.descriptors), FrameSize(e))
    && (forall i | 0 <= i < |e.descriptors.audioElements| :: CheckTopology(e.descriptors.audioElements[i]).Ok?)
    && (forall i | 0 <= i < |e.descriptors.mixPresentations| :: Readable(e.descriptors.mixPresentations[i]))
  }

  predicate Readable(m: MixPresentation) {
    && MixClean(m) && |m.subMixes| == 1
    && forall l | l in m.subMixes[0].layouts :: CheckLayout(l).Ok?
  }

  lemma BuiltIsReady(e: Encoder)
    requires Built(e)
    ensures Ready(e) && SetClean(e.descriptors)
  {
    hide Build, Frozen, SetClean, Ready, DescriptorsOf, Manifest, LowerElements, LowerMixes, SequenceProfile, Mapped;
    var d :| Build(d).Ok? && Build(d).value.0 == e;
    BuildIsSound(d);
    var r, profile := BuildFreezes(d);
    FrozenResolves(r);
    FrozenIsReady(r, profile, e.generation);
  }

  lemma FrozenIsReady(d: Declared, profile: Profile, generation: u64)
    requires Frozen(d) && Allocatable(d) && HandlesResolve(d)
    ensures Ready(Encoder(DescriptorsOf(d, profile), generation))
  {
    hide HandlesResolve, Frozen, LowerElement, LowerMix, CheckTopology, CheckLayout, MixClean, ElementClean,
         FromDescriptors, GainsOfOneFrame, Typed, ReferencedIds, SubstreamsFrom, AddNew;
    var e := Encoder(DescriptorsOf(d, profile), generation);
    LoweredElements(d, profile);
    LoweredMixes(d);
    SomethingDeclared(d, profile);
    CodecIsTyped(d);
    DurationsAreFrames(d, profile, generation);
    DeclaredAreDistinct(e.descriptors.audioElements, []);
    FirstIsDeclared(e);
  }

  lemma CodecIsTyped(d: Declared)
    requires Frozen(d) && |d.codecConfigs| == 1
    ensures var c := LowerCodecs(d.codecConfigs)[0];
            && c.numSamplesPerFrame > 0 && Typed(c.codecId, c.decoderConfig) && !c.decoderConfig.RawConfig?
  {
    hide ValidateDeclarations, HandlesResolve, ParametersKnown, MixGains, GainsOf, AllParameters, CheckCodec,
         CheckElement, CheckMix, CheckTogether, Typed;
    Validated(d);
    CheckedCodec(d.codecConfigs[0], 0);
  }

  /** A presentation needs an element, and an element a codec. */
  lemma SomethingDeclared(d: Declared, profile: Profile)
    requires Frozen(d) && Allocatable(d) && HandlesResolve(d)
    ensures |d.codecConfigs| == 1 && d.audioElements != [] && LowerElements(d)[0].audioSubstreamIds != []
  {
    hide ValidateDeclarations, Frozen, LowerElement, LowerMix, CheckTopology, CheckLayout, SubMixClean, ReferencedIds,
         LanguagesDistinct, LanguagesWellFormed, CheckTogether, CheckMix, CheckElement, CheckTimings, CheckCodec,
         HandlesResolve;
    LoweredCodecs(d);
    LoweredElements(d, profile);
    LoweredMixes(d);
    FrozenValidates(d);
    Validated(d);
    CheckedTogether(d);
    var m := LowerMixes(d)[0];
    assert SubMixClean(m.subMixes[0], |m.annotationsLanguage|);
    SubMixRefers(m.subMixes, |m.annotationsLanguage|);
    CodecOf(d, 0);
  }

  lemma SubMixRefers(subMixes: seq<SubMix>, countLabel: nat)
    requires |subMixes| == 1 && SubMixClean(subMixes[0], countLabel)
    ensures ReferencedIds(subMixes) != [] && ReferencedIds(subMixes)[0] in ReferencedIds(subMixes)
  {
    hide SubMixElementClean, LayoutClean, HasStereoLayout;
    assert subMixes[1..] == [];
  }

  lemma CodecOf(d: Declared, k: nat)
    requires HandlesResolve(d) && k < |d.audioElements|
    ensures d.codecConfigs != []
  {
    hide References, GainCount;
    assert d.audioElements[k].codecConfig.index < |d.codecConfigs|;
  }

  lemma DurationsAreFrames(d: Declared, profile: Profile, generation: u64)
    requires Frozen(d) && |d.codecConfigs| == 1 && Allocatable(d) && HandlesResolve(d)
    ensures var e := Encoder(DescriptorsOf(d, profile), generation);
            GainsOfOneFrame(FromDescriptors(e.descriptors), FrameSize(e))
  {
    hide ValidateDeclarations, Frozen, HandlesResolve, CheckCodec, CheckElement, CheckMix, CheckTogether,
         CheckParameter, AllParameters, FromDescriptors, LowerElements, LowerMixes;
    FrozenValidates(d);
    Validated(d);
    RegistryIsTheHandles(d, profile);
    var handles := AllParameters(d.mixPresentations);
    forall r | r in WireDefinitions(d, handles)
      ensures r.context.MixGainContext?
      ensures !r.definition.Mode() ==>
                r.definition.durationFields.value.duration == d.codecConfigs[0].numSamplesPerFrame
    {
      var i :| 0 <= i < |handles| && WireDefinitions(d, handles)[i] == r;
      assert KnownParameter(d, handles[i]);
      var p := d.parameters[handles[i].index];
      assert CheckTiming(d.codecConfigs[0], OutputSampleRate(d.codecConfigs[0]).value, p.gain.definition).Ok?;
    }
  }

  lemma {:induction false} AddNewKeeps(seen: seq<u32>, ids: seq<u32>)
    requires Distinct(seen)
    ensures Distinct(AddNew(seen, ids)) && |AddNew(seen, ids)| >= |seen|
    ensures ids != [] ==> AddNew(seen, ids) != []
    decreases |ids|
  {
    if ids != [] {
      AddNewKeeps(if ids[0] in seen then seen else seen + [ids[0]], ids[1..]);
    }
  }

  lemma {:induction false} DeclaredAreDistinct(elements: seq<AudioElement>, seen: seq<u32>)
    requires Distinct(seen)
    ensures Distinct(SubstreamsFrom(elements, seen)) && |SubstreamsFrom(elements, seen)| >= |seen|
    decreases |elements|
  {
    hide AddNew;
    if elements != [] {
      AddNewKeeps(seen, elements[0].audioSubstreamIds);
      DeclaredAreDistinct(elements[1..], AddNew(seen, elements[0].audioSubstreamIds));
    }
  }

  lemma FirstIsDeclared(e: Encoder)
    requires e.descriptors.audioElements != [] && e.descriptors.audioElements[0].audioSubstreamIds != []
    ensures DeclaredSubstreams(e) != []
  {
    hide AddNew;
    var elements := e.descriptors.audioElements;
    AddNewKeeps([], elements[0].audioSubstreamIds);
    DeclaredAreDistinct(elements[1..], AddNew([], elements[0].audioSubstreamIds));
  }

  // --------------------------------------------------------------- over a whole run

  function Trims(inputs: seq<TemporalUnitInput>): (plan: seq<Option<Trimming>>)
    ensures |plan| == |inputs|
  {
    seq(|inputs|, i requires 0 <= i < |inputs| => inputs[i].trimming)
  }

  ghost predicate SameIds(a: seq<u32>, b: seq<u32>) {
    forall id :: id in a <==> id in b
  }

  /** One accepted unit: a frame per declared substream, a block per parameter of the run, each lasting a frame. */
  ghost predicate InStep(e: Encoder, ids: seq<u32>, input: TemporalUnitInput, unit: TemporalUnit) {
    && !unit.hasDelimiter && unit.parameterBlocks == BlockObus(input.parameterBlocks)
    && SubstreamIds(unit.audioFrames) == DeclaredSubstreams(e)
    && (forall k | 0 <= k < |unit.audioFrames| ::
          unit.audioFrames[k] == IntoObu(unit.audioFrames[k].payload, input.trimming))
    && Distinct(BlockIds(input.parameterBlocks)) && SameIds(BlockIds(input.parameterBlocks), ids)
    && forall k | 0 <= k < |input.parameterBlocks| ::
         Passed(e, FromDescriptors(e.descriptors), input.parameterBlocks[k])
  }

  function FirstIds(inputs: seq<TemporalUnitInput>): seq<u32> {
    if inputs == [] then [] else BlockIds(inputs[0].parameterBlocks)
  }

  ghost predicate RunFacts(e: Encoder, inputs: seq<TemporalUnitInput>, units: seq<TemporalUnit>, progress: Progress) {
    && |units| == |inputs|
    && (inputs == [] ==> progress.parameterIds == None)
    && (inputs != [] ==> progress.parameterIds == Some(FirstIds(inputs)) && Distinct(FirstIds(inputs)))
    && (FrameSize(e).Some? ==> RunTrims(FrameSize(e).value, OpusPreSkip(e), Trims(inputs)) == Ok(progress.trims))
    && forall i | 0 <= i < |units| :: InStep(e, FirstIds(inputs), inputs[i], units[i])
  }

  lemma LastIsNew(ids: seq<u32>, n: nat)
    requires Distinct(ids) && 0 < n <= |ids|
    ensures ids[n - 1] !in ids[..n - 1]
  {
  }

  function Members(ids: seq<u32>): (r: set<u32>)
    ensures forall id :: id in r <==> id in ids
  {
    if ids == [] then {}
    else
      assert ids == ids[..|ids| - 1] + [ids[|ids| - 1]];
      Members(ids[..|ids| - 1]) + {ids[|ids| - 1]}
  }

  lemma {:induction false} DistinctCount(ids: seq<u32>)
    requires Distinct(ids)
    ensures |Members(ids)| == |ids|
  {
    if ids != [] {
      LastIsNew(ids, |ids|);
      DistinctCount(ids[..|ids| - 1]);
    }
  }

  /** As many ids, none twice, all expected: then all expected ones are there. */
  lemma CoverageIsEquality(ids: seq<u32>, expected: seq<u32>)
    requires Distinct(ids) && Distinct(expected) && |ids| == |expected|
    requires forall id | id in ids :: id in expected
    ensures SameIds(ids, expected)
  {
    DistinctCount(ids);
    DistinctCount(expected);
    Subsets(Members(ids), Members(expected));
  }

  lemma Subsets(a: set<u32>, b: set<u32>)
    requires a <= b && |a| == |b|
    ensures a == b
  {
    if x :| x in b && x !in a {
      SmallerSet(a, b - {x});
    }
  }

  lemma SmallerSet(a: set<u32>, b: set<u32>)
    requires a <= b
    ensures |a| <= |b|
  {
    if a != {} {
      var x :| x in a;
      SmallerSet(a - {x}, b - {x});
    }
  }

  lemma PlanCodecDeclared(codecs: seq<CodecConfig>, elements: seq<AudioElement>, id: u32)
    requires SubstreamPlan(codecs, elements, id).Ok?
    ensures SubstreamPlan(codecs, elements, id).value.0 in codecs
  {
    hide Position;
    if Position(elements[0].audioSubstreamIds, id).None? {
      PlanCodecDeclared(codecs, elements[1..], id);
    } else {
      FoundCodec(codecs, elements[0].codecConfigId);
    }
  }

  lemma {:induction false} FoundCodec(codecs: seq<CodecConfig>, id: u32)
    requires CodecById(codecs, id).Some?
    ensures CodecById(codecs, id).value in codecs
  {
    if codecs[0].codecConfigId != id {
      FoundCodec(codecs[1..], id);
    }
  }

  /** With a single codec, a unit's trim fits that codec's frame. */
  lemma TrimFits(e: Encoder, progress: Progress, input: TemporalUnitInput)
    requires |e.descriptors.codecConfigs| == 1 && DeclaredSubstreams(e) != [] && Preflight(e, progress, input).Ok?
    ensures CheckFits(input.trimming, e.descriptors.codecConfigs[0].numSamplesPerFrame).Ok?
  {
    hide DeclaredSubstreams, LowerFrame, StepTrim, CheckBlocks, CheckCoverage, FromDescriptors, CheckBlock, IntoObu;
    LoweredFrames(e, input, DeclaredSubstreams(e), 0);
    var expected := DeclaredSubstreams(e)[0];
    assert LowerFrame(e, input.frames[0 + 0], DeclaredSubstreams(e)[0 + 0], input.trimming).Ok?;
    FrameFits(e, input.frames[0], expected, input.trimming);
  }

  lemma FrameFits(e: Encoder, frame: (SubstreamHandle, FrameInput), expected: u32, t: Option<Trimming>)
    requires |e.descriptors.codecConfigs| == 1 && LowerFrame(e, frame, expected, t).Ok?
    ensures CheckFits(t, e.descriptors.codecConfigs[0].numSamplesPerFrame).Ok?
  {
    hide SubstreamIdFromHandle, SubstreamPlan, CheckFrame, CheckFits, IntoObu;
    var id := SubstreamIdFromHandle(e, frame.0).value;
    PlanCodecDeclared(e.descriptors.codecConfigs, e.descriptors.audioElements, id);
  }

  lemma TrimsSnoc(inputs: seq<TemporalUnitInput>)
    requires inputs != []
    ensures Trims(inputs)[..|inputs| - 1] == Trims(inputs[..|inputs| - 1])
    ensures Trims(inputs)[|inputs| - 1] == inputs[|inputs| - 1].trimming
  {
  }

  /** The invariant of every run: whatever has been accepted so far is in step with its first unit. */
  lemma {:induction false} RunKeeps(e: Encoder, inputs: seq<TemporalUnitInput>)
    requires Ready(e) && AcceptAll(e, inputs).Ok?
    ensures RunFacts(e, inputs, AcceptAll(e, inputs).value.0, AcceptAll(e, inputs).value.1)
  {
    hide Ready, Preflight, RunFacts;
    if inputs == [] {
      NothingRun(e);
    } else {
      RunKeeps(e, inputs[..|inputs| - 1]);
      var (units, progress) := AcceptAll(e, inputs[..|inputs| - 1]).value;
      RunGrows(e, inputs, units, progress);
    }
  }

  lemma NothingRun(e: Encoder)
    ensures RunFacts(e, [], [], NO_PROGRESS)
  {
  }

  lemma ReadyBasics(e: Encoder)
    requires Ready(e)
    ensures |e.descriptors.codecConfigs| == 1 && DeclaredSubstreams(e) != [] && Distinct(DeclaredSubstreams(e))
    ensures FrameSize(e) == Some(e.descriptors.codecConfigs[0].numSamplesPerFrame) && FrameSize(e).value > 0
    ensures GainsOfOneFrame(FromDescriptors(e.descriptors), FrameSize(e))
  {
    hide DeclaredSubstreams, GainsOfOneFrame, FromDescriptors, CheckTopology, Readable, Typed;
  }

  lemma RunGrows(e: Encoder, inputs: seq<TemporalUnitInput>, units: seq<TemporalUnit>, progress: Progress)
    requires Ready(e) && inputs != [] && RunFacts(e, inputs[..|inputs| - 1], units, progress)
    requires Preflight(e, progress, inputs[|inputs| - 1]).Ok?
    ensures var (unit, next) := Preflight(e, progress, inputs[|inputs| - 1]).value;
            RunFacts(e, inputs, units + [unit], next)
  {
    hide Ready, Preflight, InStep, StepTrim, CheckFits, FrameSize, OpusPreSkip, BlockIds;
    var n := |inputs| - 1;
    var (unit, next) := Preflight(e, progress, inputs[n]).value;
    ReadyBasics(e);
    UnitFacts(e, progress, inputs[n]);
    TrimFits(e, progress, inputs[n]);
    TrimsSnoc(inputs);
    StepAccepted(e, progress, inputs[n]);
    NextInStep(e, inputs, progress);
    forall i | 0 <= i < n + 1 ensures InStep(e, FirstIds(inputs), inputs[i], (units + [unit])[i]) {
      if i < n {
        assert inputs[..n][i] == inputs[i] && FirstIds(inputs[..n]) == FirstIds(inputs);
      }
    }
  }

  lemma StepAccepted(e: Encoder, progress: Progress, input: TemporalUnitInput)
    requires Preflight(e, progress, input).Ok?
    ensures StepTrim(FrameSize(e), OpusPreSkip(e), progress.trims, input.trimming).Ok?
  {
    hide LowerFrames, CheckBlocks, CheckCoverage, FromDescriptors, StepTrim, DeclaredSubstreams;
  }

  lemma NextInStep(e: Encoder, inputs: seq<TemporalUnitInput>, progress: Progress)
    requires inputs != [] && Preflight(e, progress, inputs[|inputs| - 1]).Ok?
    requires |inputs| == 1 ==> progress.parameterIds == None
    requires |inputs| > 1 ==> progress.parameterIds == Some(FirstIds(inputs)) && Distinct(FirstIds(inputs))
    ensures var (unit, next) := Preflight(e, progress, inputs[|inputs| - 1]).value;
            && InStep(e, FirstIds(inputs), inputs[|inputs| - 1], unit)
            && next.parameterIds == Some(FirstIds(inputs)) && Distinct(FirstIds(inputs))
  {
    hide Preflight, Passed, DeclaredSubstreams, FromDescriptors, IntoObu, BlockIds, StepTrim;
    var input := inputs[|inputs| - 1];
    UnitFacts(e, progress, input);
    if |inputs| > 1 {
      CoverageIsEquality(BlockIds(input.parameterBlocks), FirstIds(inputs));
    }
  }

  // ------------------------------------------------------------ the parameter timeline

  /** How long the blocks of one parameter last in a unit. */
  function UnitTicks(definitions: Registry, blocks: seq<Obu<ParameterBlock>>, id: u32): nat {
    if blocks == [] then 0
    else
      UnitTicks(definitions, blocks[..|blocks| - 1], id) +
      var b := blocks[|blocks| - 1].payload;
      if b.parameterId == id && Get(definitions, id).Some? then BlockDuration(Get(definitions, id).value.definition, b)
      else 0
  }

  function Ticks(definitions: Registry, units: seq<TemporalUnit>, id: u32): nat {
    if units == [] then 0
    else Ticks(definitions, units[..|units| - 1], id) + UnitTicks(definitions, units[|units| - 1].parameterBlocks, id)
  }

  /** The frames one substream has, over the units. */
  function FrameCount(units: seq<TemporalUnit>, id: u32): nat {
    if units == [] then 0
    else FrameCount(units[..|units| - 1], id) + Occurrences(SubstreamIds(units[|units| - 1].audioFrames), id)
  }

  function Occurrences(ids: seq<u32>, id: u32): nat {
    if ids == [] then 0 else Occurrences(ids[..|ids| - 1], id) + if ids[|ids| - 1] == id then 1 else 0
  }

  lemma {:induction false} OccursOnce(ids: seq<u32>, id: u32)
    requires Distinct(ids)
    ensures Occurrences(ids, id) == if id in ids then 1 else 0
  {
    if ids != [] {
      var init := ids[..|ids| - 1];
      OccursOnce(init, id);
      assert ids == init + [ids[|ids| - 1]];
    }
  }

  /** Among distinct blocks that each last a frame, one parameter lasts a frame if it is there at all. */
  lemma {:induction false} OneBlockEach(e: Encoder, blocks: seq<SubmittedBlock>, id: u32, n: nat)
    requires Distinct(BlockIds(blocks)) && n <= |blocks| && FrameSize(e).Some?
    requires GainsOfOneFrame(FromDescriptors(e.descriptors), FrameSize(e))
    requires forall k | 0 <= k < |blocks| :: Passed(e, FromDescriptors(e.descriptors), blocks[k])
    ensures UnitTicks(FromDescriptors(e.descriptors), BlockObus(blocks)[..n], id) ==
            if id in BlockIds(blocks)[..n] then FrameSize(e).value else 0
  {
    hide Passed, GainsOfOneFrame, FromDescriptors, BlockDuration, FrameSize;
    if n > 0 {
      OneBlockEach(e, blocks, id, n - 1);
      var obus, ids := BlockObus(blocks), BlockIds(blocks);
      assert obus[..n][..n - 1] == obus[..n - 1] && ids[..n] == ids[..n - 1] + [ids[n - 1]];
      PassedLasts(e, FromDescriptors(e.descriptors), blocks[n - 1]);
      LastIsNew(ids, n);
    }
  }

  lemma PassedLasts(e: Encoder, definitions: Registry, submitted: SubmittedBlock)
    requires Passed(e, definitions, submitted) && GainsOfOneFrame(definitions, FrameSize(e))
    ensures var governing := Get(definitions, submitted.block.parameterId);
            && governing.Some? && BlockClean(submitted.block)
            && Some(BlockDuration(governing.value.definition, submitted.block)) == FrameSize(e)
  {
    hide CheckBlock, GainsOfOneFrame, BlockClean, BlockDuration;
    var before :| CheckBlock(e, definitions, submitted, before).Ok?;
    BlockLasts(e, definitions, submitted, before);
  }

  /**
    After any accepted run, each parameter of the first unit has lasted exactly as long as the audio, no other
    parameter has lasted at all, and each declared substream has exactly one frame per unit.
  */
  lemma {:induction false} CoverageIsComplete(e: Encoder, inputs: seq<TemporalUnitInput>, id: u32)
    requires Ready(e) && AcceptAll(e, inputs).Ok?
    ensures var units := AcceptAll(e, inputs).value.0;
            && |units| == |inputs|
            && Ticks(FromDescriptors(e.descriptors), units, id) ==
               (if id in FirstIds(inputs) then |units| * FrameSize(e).value else 0)
            && FrameCount(units, id) == if id in DeclaredSubstreams(e) then |units| else 0
  {
    hide Ready, Preflight, InStep, DeclaredSubstreams, FromDescriptors, Ticks, FrameCount;
    RunKeeps(e, inputs);
    ReadyBasics(e);
    TicksOf(e, inputs, AcceptAll(e, inputs).value.0, FirstIds(inputs), id);
  }

  lemma {:induction false} TicksOf(
      e: Encoder, inputs: seq<TemporalUnitInput>, units: seq<TemporalUnit>, ids: seq<u32>, id: u32)
    requires FrameSize(e).Some? && Distinct(DeclaredSubstreams(e)) && |units| == |inputs|
    requires GainsOfOneFrame(FromDescriptors(e.descriptors), FrameSize(e))
    requires forall i | 0 <= i < |units| :: InStep(e, ids, inputs[i], units[i])
    ensures Ticks(FromDescriptors(e.descriptors), units, id) == if id in ids then |units| * FrameSize(e).value else 0
    ensures FrameCount(units, id) == if id in DeclaredSubstreams(e) then |units| else 0
  {
    hide InStep, GainsOfOneFrame, DeclaredSubstreams, FromDescriptors, FrameSize, UnitTicks, Occurrences;
    if units != [] {
      var n := |units| - 1;
      TicksOf(e, inputs[..n], units[..n], ids, id);
      OneUnit(e, inputs[n], units[n], ids, id);
      assert (n + 1) * FrameSize(e).value == n * FrameSize(e).value + FrameSize(e).value;
    }
  }

  lemma OneUnit(e: Encoder, input: TemporalUnitInput, unit: TemporalUnit, ids: seq<u32>, id: u32)
    requires FrameSize(e).Some? && Distinct(DeclaredSubstreams(e)) && InStep(e, ids, input, unit)
    requires GainsOfOneFrame(FromDescriptors(e.descriptors), FrameSize(e))
    ensures UnitTicks(FromDescriptors(e.descriptors), unit.parameterBlocks, id) ==
            if id in ids then FrameSize(e).value else 0
    ensures Occurrences(SubstreamIds(unit.audioFrames), id) == if id in DeclaredSubstreams(e) then 1 else 0
  {
    hide Passed, GainsOfOneFrame, DeclaredSubstreams, FromDescriptors, FrameSize, UnitTicks, IntoObu, BlockIds;
    var blocks := input.parameterBlocks;
    OneBlockEach(e, blocks, id, |blocks|);
    assert BlockObus(blocks)[..|blocks|] == BlockObus(blocks) && BlockIds(blocks)[..|blocks|] == BlockIds(blocks);
    OccursOnce(DeclaredSubstreams(e), id);
  }

  /** An accepted run that may finish has an allowed trim plan, and only such a run may. */
  lemma RunTrimsAllowed(e: Encoder, inputs: seq<TemporalUnitInput>)
    requires Ready(e) && AcceptAll(e, inputs).Ok?
    ensures CheckFinish(OpusPreSkip(e), AcceptAll(e, inputs).value.1.trims).Ok? <==>
            Allowed(FrameSize(e).value, OpusPreSkip(e), Trims(inputs))
  {
    hide Ready, Preflight, InStep, Allowed, CheckFinish, FrameSize, OpusPreSkip;
    RunKeeps(e, inputs);
    ReadyBasics(e);
    JudgesExactly(FrameSize(e).value, OpusPreSkip(e), Trims(inputs));
  }

  // ------------------------------------------------------------- it reads back

  /** Well-formed under any registry, which is every OBU but an ungoverned block. */
  predicate WellFormedAlone(o: SequenceObu) {
    !o.Ungoverned? && WellFormed([], o)
  }

  lemma {:induction false} AloneIsEnough(registry: Registry, s: seq<SequenceObu>)
    requires forall i | 0 <= i < |s| :: WellFormedAlone(s[i])
    ensures AllWellFormed(registry, s)
    decreases |s|
  {
    hide Observe, HeaderCanonical, ElementCanonical, MixCanonical, BlockClean, Typed;
    if s != [] {
      assert WellFormedAlone(s[0]);
      AloneIsEnough(Observe(registry, s[0]), s[1..]);
    }
  }

  lemma ElementReadsBack(e: AudioElement)
    requires CheckTopology(e).Ok?
    ensures WellFormedAlone(FlatElement(e))
  {
    hide MappingFits;
    if e.elementType.ChannelBased? {
      var layers := e.elementType.layers;
      forall layer | layer in layers ensures layer.layout.Canonical() {
        assert layer == layers[0];
      }
    }
  }

  lemma MixReadsBack(m: MixPresentation)
    requires Readable(m)
    ensures WellFormedAlone(FlatMix(m))
  {
    hide LanguagesDistinct, LanguagesWellFormed, HasStereoLayout, LayoutClean;
    forall s | s in m.subMixes ensures SubMixCanonical(s) {
      assert s == m.subMixes[0];
      forall element | element in s.elements ensures element.rendering.mode.Canonical() {
        assert SubMixElementClean(element, |m.annotationsLanguage|);
      }
    }
  }

  lemma CodecReadsBack(c: CodecConfig)
    requires Typed(c.codecId, c.decoderConfig) && !c.decoderConfig.RawConfig?
    ensures WellFormedAlone(FlatCodec(c))
  {
    hide Typed;
  }

  lemma FrameReadsBack(frame: AudioFrame, t: Option<Trimming>)
    ensures WellFormedAlone(FlatFrame(IntoObu(frame, t)))
  {
    ImplicitIdRoundTrip(frame.substreamId, ObuTypeFor(frame.substreamId));
  }

  lemma BlockReadsBack(block: ParameterBlock)
    requires BlockClean(block)
    ensures WellFormedAlone(FlatBlock(BlockObu(block)))
  {
    hide BlockClean;
  }

  lemma PrologueReadsBack(e: Encoder)
    requires Ready(e)
    ensures forall i | 0 <= i < |FlatDescriptors(e.descriptors)| :: WellFormedAlone(FlatDescriptors(e.descriptors)[i])
  {
    hide WellFormedAlone, DeclaredSubstreams, GainsOfOneFrame, FromDescriptors, CheckTopology, Readable, Typed, Sorted,
         FlatElement, FlatMix, FlatCodec;
    var set_ := e.descriptors;
    HeaderReadsBack(set_.sequenceHeader);
    SortedIsStable(set_.codecConfigs, (c: CodecConfig) => c.codecConfigId, 0);
    SortedIsStable(set_.audioElements, (e: AudioElement) => e.audioElementId, 0);
    forall c | c in set_.codecConfigs ensures WellFormedAlone(FlatCodec(c)) {
      CodecReadsBack(c);
    }
    forall v | v in set_.audioElements ensures WellFormedAlone(FlatElement(v)) {
      ElementReadsBack(v);
    }
    forall m | m in set_.mixPresentations ensures WellFormedAlone(FlatMix(m)) {
      MixReadsBack(m);
    }
    forall i | 0 <= i < |FlatDescriptors(set_)| ensures WellFormedAlone(FlatDescriptors(set_)[i]) {
      PartReadsBack(set_, i);
    }
  }

  lemma HeaderReadsBack(v: IaSequenceHeader)
    ensures WellFormedAlone(FlatHeader(v))
  {
  }

  lemma PartReadsBack(set_: DescriptorSet, i: nat)
    requires i < |FlatDescriptors(set_)| && WellFormedAlone(FlatHeader(set_.sequenceHeader))
    requires forall c | c in SortedCodecs(set_) :: WellFormedAlone(FlatCodec(c))
    requires forall v | v in SortedElements(set_) :: WellFormedAlone(FlatElement(v))
    requires forall m | m in set_.mixPresentations :: WellFormedAlone(FlatMix(m))
    ensures WellFormedAlone(FlatDescriptors(set_)[i])
  {
    hide WellFormedAlone, SortedCodecs, SortedElements, FlatHeader, FlatCodec, FlatElement, FlatMix;
    var codecs, elements, mixes := SortedCodecs(set_), SortedElements(set_), set_.mixPresentations;
    if 1 <= i < 1 + |codecs| {
      assert codecs[i - 1] in codecs;
    } else if 1 + |codecs| <= i < 1 + |codecs| + |elements| {
      assert elements[i - 1 - |codecs|] in elements;
    } else if i > 0 {
      assert mixes[i - 1 - |codecs| - |elements|] in mixes;
    }
  }

  lemma UnitReadsBack(e: Encoder, ids: seq<u32>, input: TemporalUnitInput, unit: TemporalUnit)
    requires InStep(e, ids, input, unit) && GainsOfOneFrame(FromDescriptors(e.descriptors), FrameSize(e))
    ensures forall i | 0 <= i < |FlatUnit(unit)| :: WellFormedAlone(FlatUnit(unit)[i])
  {
    hide WellFormedAlone, Passed, GainsOfOneFrame, DeclaredSubstreams, FromDescriptors, FrameSize, IntoObu, BlockIds,
         BlockDuration, BlockObu, FlatBlock, FlatFrame, FlatUnit, BlockClean;
    forall i | 0 <= i < |unit.parameterBlocks| ensures WellFormedAlone(FlatBlock(unit.parameterBlocks[i])) {
      PassedLasts(e, FromDescriptors(e.descriptors), input.parameterBlocks[i]);
      BlockReadsBack(input.parameterBlocks[i].block);
    }
    forall i | 0 <= i < |unit.audioFrames| ensures WellFormedAlone(FlatFrame(unit.audioFrames[i])) {
      FrameReadsBack(unit.audioFrames[i].payload, input.trimming);
    }
    PiecesOfUnit(unit);
  }

  lemma PiecesOfUnit(unit: TemporalUnit)
    requires !unit.hasDelimiter
    requires forall i | 0 <= i < |unit.parameterBlocks| :: WellFormedAlone(FlatBlock(unit.parameterBlocks[i]))
    requires forall i | 0 <= i < |unit.audioFrames| :: WellFormedAlone(FlatFrame(unit.audioFrames[i]))
    ensures forall i | 0 <= i < |FlatUnit(unit)| :: WellFormedAlone(FlatUnit(unit)[i])
  {
    hide WellFormedAlone, FlatBlock, FlatFrame;
    var blocks, frames := unit.parameterBlocks, unit.audioFrames;
    forall i | 0 <= i < |FlatUnit(unit)| ensures WellFormedAlone(FlatUnit(unit)[i]) {
      if i < |blocks| {
        assert FlatUnit(unit)[i] == FlatBlock(blocks[i]);
      } else {
        assert FlatUnit(unit)[i] == FlatFrame(frames[i - |blocks|]);
      }
    }
  }

  lemma {:induction false} UnitsReadBack(e: Encoder, ids: seq<u32>, inputs: seq<TemporalUnitInput>,
                                         units: seq<TemporalUnit>)
    requires GainsOfOneFrame(FromDescriptors(e.descriptors), FrameSize(e)) && |units| == |inputs|
    requires forall i | 0 <= i < |units| :: InStep(e, ids, inputs[i], units[i])
    ensures forall i | 0 <= i < |FlatUnits(units)| :: WellFormedAlone(FlatUnits(units)[i])
    decreases |units|
  {
    hide WellFormedAlone, GainsOfOneFrame, FromDescriptors, FrameSize, InStep, FlatUnit;
    if units != [] {
      UnitReadsBack(e, ids, inputs[0], units[0]);
      UnitsReadBack(e, ids, inputs[1..], units[1..]);
    }
  }

  // ------------------------------------------------------------- the only refusal left

  lemma UnitValid(e: Encoder, progress: Progress, input: TemporalUnitInput)
    requires Ready(e) && Preflight(e, progress, input).Ok?
    ensures ValidateTemporalUnit(Preflight(e, progress, input).value.0.audioFrames).Ok?
  {
    hide Ready, Preflight, Passed, DeclaredSubstreams, FromDescriptors, BlockIds, StepTrim;
    ReadyBasics(e);
    UnitFacts(e, progress, input);
    ValidUnitIff(Preflight(e, progress, input).value.0.audioFrames);
  }

  lemma PassedWrites(e: Encoder, definitions: Registry, submitted: SubmittedBlock)
    requires Passed(e, definitions, submitted) && GainsOfOneFrame(definitions, FrameSize(e))
    ensures WGovernedBlock(definitions, submitted.block).Ok? && BlockClean(submitted.block)
  {
    hide BlockClean, GainsOfOneFrame, CheckBlock;
    var before :| CheckBlock(e, definitions, submitted, before).Ok?;
    CheckedWrites(e, definitions, submitted, before);
    BlockLasts(e, definitions, submitted, before);
  }

  lemma CheckedWrites(e: Encoder, definitions: Registry, submitted: SubmittedBlock, before: seq<u32>)
    requires CheckBlock(e, definitions, submitted, before).Ok?
    ensures WGovernedBlock(definitions, submitted.block).Ok?
  {
    hide WParameterBlock, CheckSubmitted, ParameterIdFromHandle;
  }

  /** What the preflight accepts is refused by the sequence writer exactly when an OBU of it is over the ceiling. */
  lemma UnitIsTheCeiling(e: Encoder, progress: Progress, input: TemporalUnitInput)
    requires Ready(e) && Preflight(e, progress, input).Ok?
    ensures var unit, definitions := Preflight(e, progress, input).value.0, FromDescriptors(e.descriptors);
            && (WAll([], definitions, FlatUnit(unit)).Ok? <==> UnitFits(definitions, unit))
            && (WAll([], definitions, FlatUnit(unit)).Err? ==>
                  WAll([], definitions, FlatUnit(unit)) == Err(ObuTooLarge))
  {
    hide Ready, Preflight, Passed, DeclaredSubstreams, FromDescriptors, BlockIds, StepTrim, GainsOfOneFrame;
    hide WAll, WSeqObu, FlatUnit, UnitFits, Fits, FrameBytes, WGovernedBlock, IntoObu, FlatBlock, FlatFrame, IsTemporal;
    var unit, definitions := Preflight(e, progress, input).value.0, FromDescriptors(e.descriptors);
    ReadyBasics(e);
    UnitFacts(e, progress, input);
    forall k | 0 <= k < |unit.parameterBlocks|
      ensures JudgedBySize(definitions, FlatBlock(unit.parameterBlocks[k]),
                           BodyBytes(WGovernedBlock(definitions, unit.parameterBlocks[k].payload)))
    {
      PassedWrites(e, definitions, input.parameterBlocks[k]);
      BlockJudged(definitions, input.parameterBlocks[k].block);
    }
    forall k | 0 <= k < |unit.audioFrames|
      ensures JudgedBySize(definitions, FlatFrame(unit.audioFrames[k]), FrameBytes(unit.audioFrames[k]))
    {
      FrameJudged(definitions, unit.audioFrames[k].payload, input.trimming);
    }
    UnitTemporal(unit);
    AllAlone([], definitions, FlatUnit(unit));
    UnitJudged(definitions, unit);
  }

  /** Written exactly when its size fits, and refused for nothing else. */
  ghost predicate JudgedBySize(registry: Registry, o: SequenceObu, size: int) {
    && (WSeqObu([], registry, o).Ok? <==> Fits(size))
    && (WSeqObu([], registry, o).Err? ==> WSeqObu([], registry, o) == Err(ObuTooLarge))
  }

  lemma UnitJudged(definitions: Registry, unit: TemporalUnit)
    requires !unit.hasDelimiter
    requires forall k | 0 <= k < |unit.parameterBlocks| ::
               JudgedBySize(definitions, FlatBlock(unit.parameterBlocks[k]),
                            BodyBytes(WGovernedBlock(definitions, unit.parameterBlocks[k].payload)))
    requires forall k | 0 <= k < |unit.audioFrames| ::
               JudgedBySize(definitions, FlatFrame(unit.audioFrames[k]), FrameBytes(unit.audioFrames[k]))
    ensures (forall k | 0 <= k < |FlatUnit(unit)| :: WSeqObu([], definitions, FlatUnit(unit)[k]).Ok?) <==>
              UnitFits(definitions, unit)
    ensures forall k | 0 <= k < |FlatUnit(unit)| && WSeqObu([], definitions, FlatUnit(unit)[k]).Err? ::
              WSeqObu([], definitions, FlatUnit(unit)[k]) == Err(ObuTooLarge)
  {
    hide WSeqObu, Fits, FrameBytes, WGovernedBlock, FlatBlock, FlatFrame;
    var blocks, frames, s := unit.parameterBlocks, unit.audioFrames, FlatUnit(unit);
    assert forall k | 0 <= k < |blocks| :: s[k] == FlatBlock(blocks[k]);
    assert forall k | 0 <= k < |frames| :: s[|blocks| + k] == FlatFrame(frames[k]);
    forall k | 0 <= k < |s| && WSeqObu([], definitions, s[k]).Err?
      ensures WSeqObu([], definitions, s[k]) == Err(ObuTooLarge)
    {
      if k >= |blocks| {
        assert s[k] == FlatFrame(frames[k - |blocks|]);
      }
    }
    if UnitFits(definitions, unit) {
      forall k | 0 <= k < |s| ensures WSeqObu([], definitions, s[k]).Ok? {
        if k >= |blocks| {
          assert s[k] == FlatFrame(frames[k - |blocks|]);
        }
      }
    }
  }

  /** The builder and the preflight leave nothing the reader would take for something else. */
  lemma RunReadsBack(e: Encoder, inputs: seq<TemporalUnitInput>)
    requires Ready(e) && AcceptAll(e, inputs).Ok?
    ensures AllWellFormed([], FromParts(e.descriptors, AcceptAll(e, inputs).value.0))
  {
    hide Ready, AcceptAll, WellFormedAlone, FlatDescriptors, FlatUnits, InStep, GainsOfOneFrame, FromDescriptors;
    RunKeeps(e, inputs);
    ReadyBasics(e);
    PrologueReadsBack(e);
    UnitsReadBack(e, FirstIds(inputs), inputs, AcceptAll(e, inputs).value.0);
    AloneIsEnough([], FromParts(e.descriptors, AcceptAll(e, inputs).value.0));
  }

  /** End to end, on values: whatever bytes a run's flat sequence serialises to, parsing gives it back. */
  lemma RunParsesBack(e: Encoder, inputs: seq<TemporalUnitInput>)
    requires Ready(e) && AcceptAll(e, inputs).Ok?
    requires WriteSequence(FromParts(e.descriptors, AcceptAll(e, inputs).value.0)).Ok?
    ensures var s := FromParts(e.descriptors, AcceptAll(e, inputs).value.0);
            ParseSequence(WriteSequence(s).value) == Ok(s)
  {
    hide Ready, AcceptAll, FromParts, WriteSequence, ParseSequence, AllWellFormed;
    RunReadsBack(e, inputs);
    FlatRoundTrip(FromParts(e.descriptors, AcceptAll(e, inputs).value.0));
  }
}
