/** Which runs an encoder accepts: for every sequence of inputs, exactly those that follow these rules. */
module RunRules {
  import opened Core
  import opened Bits
  import opened Leb128
  import opened Lists
  import opened ParamDefinitions
  import opened ParameterBlocks
  import opened CodecConfigs
  import opened Streams
  import opened Declarations
  import opened TrimPlans
  import opened TemporalInputs
  import opened Timelines
  import opened Governance
  import opened FrameRules

  // ------------------------------------------------------------------------- a block

  /** A block that may be submitted: the parameter is one of the encoder's, and the block follows its rule. */
  predicate BlockTaken(e: Encoder, definitions: Registry, submitted: SubmittedBlock, samples: nat) {
    var governing := Get(definitions, submitted.block.parameterId);
    governing.Some? && BlockRule(e, governing.value.definition, submitted, samples)
  }

  lemma GainWrites(w: BitSeq, data: MixGainData)
    ensures WMixGain(w, data).Ok?
  {
    hide WLeb, WI16;
    PowersOfTwo();
  }

  lemma {:induction false} GainsWrite(w: BitSeq, subblocks: seq<Subblock>, i: nat)
    requires i <= |subblocks| && forall n | 0 <= n < |subblocks| :: subblocks[n].data.MixGain?
    ensures WMany(w, subblocks, i, SubblockWriter(MixGainContext)).Ok?
    decreases |subblocks| - i
  {
    hide WMixGain, WLeb;
    if i < |subblocks| {
      var s := subblocks[i];
      GainWrites(if s.duration.Some? then WLeb(w, s.duration.value) else w, s.data.mix);
      GainsWrite(WSubblock(w, MixGainContext, s).value, subblocks, i + 1);
    }
  }

  lemma RuleIsValid(e: Encoder, definition: ParamDefinition, submitted: SubmittedBlock, samples: nat)
    requires BlockRule(e, definition, submitted, samples) && samples > 0
    requires definition.durationFields.Some? ==> definition.durationFields.value.duration == samples
    ensures ValidateParameterBlock(definition, MixGainContext, submitted.block).Ok?
    ensures CheckSubmitted(definition, submitted.block).Ok?
    ensures definition.Mode() ==>
              submitted.block.durationFields.Some? && submitted.block.durationFields.value.duration == samples
  {
    hide ValidateParameterBlock, Fills, DurationSum;
    var block := submitted.block;
    ValidExactly(definition, MixGainContext, block);
    if block.durationFields.Some? && block.durationFields.value.constantSubblockDuration == 0 {
      forall s | s in block.subblocks ensures s.duration != Some(0) {
        var n :| 0 <= n < |block.subblocks| && block.subblocks[n] == s;
        assert Lasts(block.subblocks[n]);
      }
      assert forall n | 0 <= n < |block.subblocks| :: Lasts(block.subblocks[n]);
    }
  }

  lemma Governs(definitions: Registry, id: u32, frameSize: Option<u32>)
    requires GainsOfOneFrame(definitions, frameSize) && Get(definitions, id).Some?
    ensures Get(definitions, id).value.context == MixGainContext
    ensures Get(definitions, id).value.definition.durationFields.Some? ==>
              Some(Get(definitions, id).value.definition.durationFields.value.duration) == frameSize
  {
    hide Get;
    var k := GetIsFirst(definitions, id);
    assert definitions[k] in definitions;
  }

  lemma BlockPasses(e: Encoder, definitions: Registry, submitted: SubmittedBlock, seen: seq<u32>)
    requires GainsOfOneFrame(definitions, FrameSize(e)) && FrameSize(e).Some? && FrameSize(e).value > 0
    requires BlockTaken(e, definitions, submitted, FrameSize(e).value) && submitted.block.parameterId !in seen
    ensures CheckBlock(e, definitions, submitted, seen) == Ok(submitted.block.parameterId)
  {
    hide ValidateParameterBlock, CheckSubmitted, GainsOfOneFrame, Get, FrameSize, Fills, DurationSum, WMany, WBlockHead;
    var block := submitted.block;
    Governs(definitions, block.parameterId, FrameSize(e));
    var definition := Get(definitions, block.parameterId).value.definition;
    RuleIsValid(e, definition, submitted, FrameSize(e).value);
    GainsWrite(WBlockHead([], block), block.subblocks, 0);
  }

  /** The checks of one block, exactly. */
  lemma OneBlock(e: Encoder, definitions: Registry, submitted: SubmittedBlock, seen: seq<u32>)
    requires GainsOfOneFrame(definitions, FrameSize(e)) && FrameSize(e).Some? && FrameSize(e).value > 0
    ensures CheckBlock(e, definitions, submitted, seen).Ok? <==>
            BlockTaken(e, definitions, submitted, FrameSize(e).value) && submitted.block.parameterId !in seen
    ensures CheckBlock(e, definitions, submitted, seen).Ok? ==>
              CheckBlock(e, definitions, submitted, seen).value == submitted.block.parameterId
  {
    hide CheckBlock, BlockRule, GainsOfOneFrame, Get, FrameSize;
    if CheckBlock(e, definitions, submitted, seen).Ok? {
      BlockIsJudged(e, definitions, submitted, seen);
      CheckedBlock(e, definitions, submitted, seen);
    }
    if BlockTaken(e, definitions, submitted, FrameSize(e).value) && submitted.block.parameterId !in seen {
      BlockPasses(e, definitions, submitted, seen);
    }
  }

  // ------------------------------------------------------------------ the blocks of a unit

  /** Each block may be submitted, and no parameter has two. */
  predicate BlocksShaped(e: Encoder, definitions: Registry, blocks: seq<SubmittedBlock>, samples: nat) {
    && (forall k | 0 <= k < |blocks| :: BlockTaken(e, definitions, blocks[k], samples))
    && forall j, k | 0 <= j < k < |blocks| :: blocks[j].block.parameterId != blocks[k].block.parameterId
  }

  lemma ShapedFirst(e: Encoder, definitions: Registry, blocks: seq<SubmittedBlock>, seen: seq<u32>, samples: nat)
    requires blocks != []
    ensures var rest, id := blocks[1..], blocks[0].block.parameterId;
            && BlocksShaped(e, definitions, blocks, samples)
            && (forall k | 0 <= k < |blocks| :: blocks[k].block.parameterId !in seen) <==>
            && BlockTaken(e, definitions, blocks[0], samples) && id !in seen
            && BlocksShaped(e, definitions, rest, samples)
            && forall k | 0 <= k < |rest| :: rest[k].block.parameterId !in seen + [id]
  {
    hide BlockTaken;
    var rest := blocks[1..];
    assert forall k | 0 <= k < |rest| :: rest[k] == blocks[k + 1];
    assert forall k | 0 < k < |blocks| :: blocks[k] == rest[k - 1];
  }

  lemma {:induction false} BlocksJudged(
      e: Encoder, definitions: Registry, blocks: seq<SubmittedBlock>, seen: seq<u32>)
    requires GainsOfOneFrame(definitions, FrameSize(e)) && FrameSize(e).Some? && FrameSize(e).value > 0
    ensures CheckBlocks(e, definitions, blocks, seen).Ok? <==>
            && BlocksShaped(e, definitions, blocks, FrameSize(e).value)
            && forall k | 0 <= k < |blocks| :: blocks[k].block.parameterId !in seen
    decreases |blocks|
  {
    hide CheckBlock, BlockTaken, GainsOfOneFrame, FrameSize;
    if blocks != [] {
      OneBlock(e, definitions, blocks[0], seen);
      hide BlocksShaped;
      BlocksJudged(e, definitions, blocks[1..], seen + [blocks[0].block.parameterId]);
      ShapedFirst(e, definitions, blocks, seen, FrameSize(e).value);
    }
  }

  // -------------------------------------------------------------------------- a unit

  /** What one input must be by itself. */
  predicate UnitRule(e: Encoder, input: TemporalUnitInput)
    requires |e.descriptors.codecConfigs| == 1
  {
    && FramesShaped(e, input)
    && BlocksShaped(e, FromDescriptors(e.descriptors), input.parameterBlocks,
                    e.descriptors.codecConfigs[0].numSamplesPerFrame)
  }

  /** The parameters are those of the first unit. */
  predicate Covers(progress: Progress, input: TemporalUnitInput) {
    CheckCoverage(progress.parameterIds, BlockIds(input.parameterBlocks)).Ok?
  }

  lemma UnitJudged(e: Encoder, progress: Progress, input: TemporalUnitInput)
    requires Built(e)
    ensures |e.descriptors.codecConfigs| == 1
    ensures var samples := e.descriptors.codecConfigs[0].numSamplesPerFrame;
            Preflight(e, progress, input).Ok? <==>
            && UnitRule(e, input) && Covers(progress, input) && CheckFits(input.trimming, samples).Ok?
            && StepTrim(Some(samples), OpusPreSkip(e), progress.trims, input.trimming).Ok?
  {
    hide Built, Ready, Preflight, FramesShaped, StepTrim, CheckBlocks, CheckCoverage, FromDescriptors, FrameSize,
         OpusPreSkip, BlocksShaped, GainsOfOneFrame, DeclaredSubstreams, BlockIds;
    BuiltIsReady(e);
    ReadyBasics(e);
    ShapedFramesPass(e, progress, input);
    var definitions := FromDescriptors(e.descriptors);
    BlocksJudged(e, definitions, input.parameterBlocks, []);
    if CheckBlocks(e, definitions, input.parameterBlocks, []).Ok? {
      CheckedBlocks(e, definitions, input.parameterBlocks, []);
      assert [] + BlockIds(input.parameterBlocks) == BlockIds(input.parameterBlocks);
    }
  }

  // --------------------------------------------------------------------------- a run

  predicate HasBlock(input: TemporalUnitInput, id: u32) {
    exists k | 0 <= k < |input.parameterBlocks| :: input.parameterBlocks[k].block.parameterId == id
  }

  /** Blocks for the same parameters. */
  ghost predicate SameParameters(a: TemporalUnitInput, b: TemporalUnitInput) {
    forall id :: HasBlock(a, id) <==> HasBlock(b, id)
  }

  /** Each unit follows the rule of units, and all have blocks for the same parameters. */
  ghost predicate UnitsRule(e: Encoder, inputs: seq<TemporalUnitInput>)
    requires |e.descriptors.codecConfigs| == 1
  {
    && (forall k | 0 <= k < |inputs| :: UnitRule(e, inputs[k]))
    && forall k | 0 <= k < |inputs| :: SameParameters(inputs[0], inputs[k])
  }

  function PreSkipOf(c: CodecConfig): Option<u16> {
    match c.decoderConfig
    case Opus(v) => Some(v.preSkip)
    case _ => None
  }

  lemma {:induction false} MoreThanFit(ids: seq<u32>, expected: seq<u32>)
    requires Distinct(ids) && Distinct(expected) && forall id | id in ids :: id in expected
    ensures |ids| <= |expected|
  {
    DistinctCount(ids);
    DistinctCount(expected);
    FitsIn(Members(ids), Members(expected));
  }

  lemma FitsIn(a: set<u32>, b: set<u32>)
    requires a <= b
    ensures |a| <= |b|
  {
    if |b| < |a| {
      SmallerSet(a, b);
    }
  }

  /** Among distinct ids the test is equality of sets. */
  lemma CoverageTest(expected: seq<u32>, ids: seq<u32>)
    requires Distinct(expected) && Distinct(ids)
    ensures CheckCoverage(Some(expected), ids).Ok? <==> SameIds(expected, ids)
  {
    hide Distinct;
    if |ids| == |expected| && forall id | id in ids :: id in expected {
      CoverageIsEquality(ids, expected);
    }
    if SameIds(expected, ids) {
      MoreThanFit(expected, ids);
      MoreThanFit(ids, expected);
    }
  }

  lemma HasIs(input: TemporalUnitInput, id: u32)
    ensures HasBlock(input, id) <==> id in BlockIds(input.parameterBlocks)
  {
    var ids := BlockIds(input.parameterBlocks);
    if k :| 0 <= k < |input.parameterBlocks| && input.parameterBlocks[k].block.parameterId == id {
      assert ids[k] == id;
    }
  }

  lemma CoverageJudged(first: TemporalUnitInput, input: TemporalUnitInput)
    requires Distinct(BlockIds(first.parameterBlocks)) && Distinct(BlockIds(input.parameterBlocks))
    ensures CheckCoverage(Some(BlockIds(first.parameterBlocks)), BlockIds(input.parameterBlocks)).Ok? <==>
            SameParameters(first, input)
  {
    hide Distinct, BlockIds, CheckCoverage, HasBlock;
    CoverageTest(BlockIds(first.parameterBlocks), BlockIds(input.parameterBlocks));
    forall id: u32
      ensures HasBlock(first, id) <==> id in BlockIds(first.parameterBlocks)
      ensures HasBlock(input, id) <==> id in BlockIds(input.parameterBlocks)
    {
      HasIs(first, id);
      HasIs(input, id);
    }
  }

  lemma UnitsSplit(e: Encoder, inputs: seq<TemporalUnitInput>)
    requires |e.descriptors.codecConfigs| == 1 && inputs != []
    ensures var init, last := inputs[..|inputs| - 1], inputs[|inputs| - 1];
            UnitsRule(e, inputs) <==> UnitsRule(e, init) && UnitRule(e, last) && SameParameters(inputs[0], last)
  {
    hide UnitRule;
    var init := inputs[..|inputs| - 1];
    assert forall k | 0 <= k < |init| :: init[k] == inputs[k];
    if UnitsRule(e, inputs) {
      assert SameParameters(inputs[0], inputs[|inputs| - 1]);
    }
  }

  lemma ShapedIsDistinct(e: Encoder, input: TemporalUnitInput)
    requires |e.descriptors.codecConfigs| == 1 && UnitRule(e, input)
    ensures Distinct(BlockIds(input.parameterBlocks))
  {
    hide FramesShaped, BlockTaken;
  }

  /** After an accepted run the next unit covers its parameters if and only if they are those of the first. */
  lemma NextCovers(e: Encoder, inputs: seq<TemporalUnitInput>, progress: Progress)
    requires |e.descriptors.codecConfigs| == 1 && inputs != [] && UnitRule(e, inputs[|inputs| - 1])
    requires |inputs| == 1 ==> progress.parameterIds == None
    requires |inputs| > 1 ==> progress.parameterIds == Some(FirstIds(inputs)) && Distinct(FirstIds(inputs))
    ensures Covers(progress, inputs[|inputs| - 1]) <==> SameParameters(inputs[0], inputs[|inputs| - 1])
  {
    hide UnitRule, HasBlock, BlockIds, Distinct;
    ShapedIsDistinct(e, inputs[|inputs| - 1]);
    if |inputs| > 1 {
      CoverageJudged(inputs[0], inputs[|inputs| - 1]);
    }
  }

  lemma ProgressIs(e: Encoder, inputs: seq<TemporalUnitInput>)
    requires Built(e) && AcceptAll(e, inputs).Ok? && |e.descriptors.codecConfigs| == 1
    ensures var samples, progress := e.descriptors.codecConfigs[0].numSamplesPerFrame, AcceptAll(e, inputs).value.1;
            && (inputs == [] ==> progress.parameterIds == None)
            && (inputs != [] ==> progress.parameterIds == Some(FirstIds(inputs)) && Distinct(FirstIds(inputs)))
            && samples > 0 && RunTrims(samples, OpusPreSkip(e), Trims(inputs)) == Ok(progress.trims)
  {
    hide Built, Ready, AcceptAll, InStep, OpusPreSkip, FirstIds, RunTrims;
    BuiltIsReady(e);
    ReadyBasics(e);
    RunKeeps(e, inputs);
  }

  lemma {:induction false} RunJudged(e: Encoder, inputs: seq<TemporalUnitInput>)
    requires Built(e) && |e.descriptors.codecConfigs| == 1
    ensures AcceptAll(e, inputs).Ok? <==>
            && UnitsRule(e, inputs)
            && RunTrims(e.descriptors.codecConfigs[0].numSamplesPerFrame, OpusPreSkip(e), Trims(inputs)).Ok?
  {
    hide Built, Preflight, UnitRule, UnitsRule, SameParameters, Covers, CheckFits, StepTrim, OpusPreSkip, FirstIds;
    if inputs == [] {
      assert UnitsRule(e, []) by { NoUnits(e); }
    } else {
      var init, last := inputs[..|inputs| - 1], inputs[|inputs| - 1];
      RunJudged(e, init);
      UnitsSplit(e, inputs);
      TrimsSnoc(inputs);
      if AcceptAll(e, init).Ok? {
        var progress := AcceptAll(e, init).value.1;
        ProgressIs(e, init);
        UnitJudged(e, progress, last);
        SameFirst(inputs);
        if UnitRule(e, last) {
          NextCovers(e, inputs, progress);
        }
      }
    }
  }

  lemma NoUnits(e: Encoder)
    requires |e.descriptors.codecConfigs| == 1
    ensures UnitsRule(e, [])
  {
  }

  lemma SameFirst(inputs: seq<TemporalUnitInput>)
    requires inputs != []
    ensures |inputs| > 1 ==> FirstIds(inputs[..|inputs| - 1]) == FirstIds(inputs)
  {
  }

  /**
    The language of an encoder. A run of inputs is accepted, and may finish, if and only if each unit has the
    frames and the blocks of its rule, all units have blocks for the same parameters, and the trims form an
    allowed plan; and a run that goes on is accepted if and only if its trims may be continued to one.
  */
  lemma RunsJudged(e: Encoder, inputs: seq<TemporalUnitInput>)
    requires Built(e)
    ensures |e.descriptors.codecConfigs| == 1
    ensures var c := e.descriptors.codecConfigs[0];
            && (AcceptAll(e, inputs).Ok? <==>
                  UnitsRule(e, inputs) && AllowedSoFar(c.numSamplesPerFrame, PreSkipOf(c), Trims(inputs)))
            && (AcceptAll(e, inputs).Ok? && CheckFinish(PreSkipOf(c), AcceptAll(e, inputs).value.1.trims).Ok? <==>
                  UnitsRule(e, inputs) && Allowed(c.numSamplesPerFrame, PreSkipOf(c), Trims(inputs)))
  {
    hide Built, Ready, AcceptAll, UnitsRule, AllowedSoFar, Allowed, RunTrims, Trims, FirstIds;
    BuiltIsReady(e);
    ReadyBasics(e);
    RunJudged(e, inputs);
    var c := e.descriptors.codecConfigs[0];
    assert OpusPreSkip(e) == PreSkipOf(c);
    RunIsAllowed(c.numSamplesPerFrame, PreSkipOf(c), Trims(inputs));
    JudgesExactly(c.numSamplesPerFrame, PreSkipOf(c), Trims(inputs));
    if AcceptAll(e, inputs).Ok? {
      ProgressIs(e, inputs);
    }
  }
}
