/**
  One temporal unit as the encoder's caller submits it: every check before a byte is written, the unit it
  lowers to, and what a run of accepted units has in common.
*/
module TemporalInputs {
  import opened Core
  import opened Lists
  import opened Obus
  import opened ParamDefinitions
  import opened ParameterBlocks
  import opened CodecConfigs
  import opened AudioElements
  import opened AudioFrames
  import opened Parts
  import opened Streams
  import opened TrimPlans
  import opened Declarations

  datatype FrameInput =
    | LpcmInput(bytes: seq<u8>)
    | FlacInput(bytes: seq<u8>)
    | OpusInput(bytes: seq<u8>)
    | AacLcInput(bytes: seq<u8>)

  datatype SubmittedBlock = SubmittedBlock(parameter: ParameterHandle, block: ParameterBlock)

  datatype TemporalUnitInput = TemporalUnitInput(
    frames: seq<(SubstreamHandle, FrameInput)>, parameterBlocks: seq<SubmittedBlock>, trimming: Option<Trimming>)

  /** The ids of the first accepted unit, and the trim automaton. */
  datatype Progress = Progress(parameterIds: Option<seq<u32>>, trims: TrimState)

  const NO_PROGRESS: Progress := Progress(None, INITIAL)

  // ------------------------------------------------------- what the encoder knows

  function FrameSize(e: Encoder): Option<u32> {
    if e.descriptors.codecConfigs == [] then None else Some(e.descriptors.codecConfigs[0].numSamplesPerFrame)
  }

  function OpusPreSkip(e: Encoder): Option<u16> {
    if e.descriptors.codecConfigs != [] && e.descriptors.codecConfigs[0].decoderConfig.Opus?
    then Some(e.descriptors.codecConfigs[0].decoderConfig.opus.preSkip)
    else None
  }

  /** The ids not seen yet, in order. */
  function AddNew(seen: seq<u32>, ids: seq<u32>): seq<u32>
    decreases |ids|
  {
    if ids == [] then seen else AddNew(if ids[0] in seen then seen else seen + [ids[0]], ids[1..])
  }

  function SubstreamsFrom(elements: seq<AudioElement>, seen: seq<u32>): seq<u32>
    decreases |elements|
  {
    if elements == [] then seen else SubstreamsFrom(elements[1..], AddNew(seen, elements[0].audioSubstreamIds))
  }

  function DeclaredSubstreams(e: Encoder): seq<u32> {
    SubstreamsFrom(e.descriptors.audioElements, [])
  }

  function SubstreamIdFromHandle(e: Encoder, h: SubstreamHandle): Result<u32> {
    if h.generation != e.generation || h.index >= U32_LIMIT || h.index !in DeclaredSubstreams(e)
    then Err(UnknownTemporalSubstreamHandle)
    else Ok(h.index)
  }

  function ParameterIdFromHandle(e: Encoder, h: ParameterHandle, definitions: Registry): Result<u32> {
    if h.generation != e.generation || h.index >= U32_LIMIT || Get(definitions, h.index).None?
    then Err(UnknownTemporalParameterHandle)
    else Ok(h.index)
  }

  function Position(ids: seq<u32>, id: u32): Option<nat> {
    if ids == [] then None
    else if ids[0] == id then Some(0)
    else
      var rest := Position(ids[1..], id);
      if rest.Some? then Some(rest.value + 1) else None
  }

  function CodecById(codecs: seq<CodecConfig>, id: u32): Option<CodecConfig> {
    if codecs == [] then None else if codecs[0].codecConfigId == id then Some(codecs[0]) else CodecById(codecs[1..], id)
  }

  /** The codec and channel count of a substream, from the first element that lists it. */
  function SubstreamPlan(codecs: seq<CodecConfig>, elements: seq<AudioElement>, id: u32): Result<(CodecConfig, u8)> {
    if elements == [] then Err(UnknownTemporalSubstreamHandle)
    else
      var position := Position(elements[0].audioSubstreamIds, id);
      if position.None? then SubstreamPlan(codecs, elements[1..], id)
      else
        var codec := CodecById(codecs, elements[0].codecConfigId);
        if codec.None? then Err(FrameCodecMismatch)
        else Ok((codec.value, SubstreamChannels(elements[0], position.value)))
  }

  // ------------------------------------------------------------------- the frames

  /** LPCM bytes are counted against the frame; access units of the other codecs pass unread. */
  function CheckFrame(codec: CodecConfig, channels: u8, frame: FrameInput): Result<()> {
    match codec.decoderConfig
    case Lpcm(lpcm) =>
      if !frame.LpcmInput? then Err(FrameCodecMismatch)
      else
        var size := lpcm.sampleSize / 8;
        if size == 0 || |frame.bytes| % size != 0 then Err(LpcmFrameByteAlignment)
        else Require(|frame.bytes| == codec.numSamplesPerFrame * channels * size, LpcmFrameSampleCountMismatch)
    case Flac(_) => Require(frame.FlacInput?, FrameCodecMismatch)
    case Opus(_) => Require(frame.OpusInput?, FrameCodecMismatch)
    case AacLc(_) => Require(frame.AacLcInput?, FrameCodecMismatch)
    case RawConfig(_, _) => Err(FrameCodecMismatch)
  }

  function LowerFrame(e: Encoder, frame: (SubstreamHandle, FrameInput), expected: u32, t: Option<Trimming>)
      : Result<Obu<AudioFrame>>
  {
    var id :- SubstreamIdFromHandle(e, frame.0);
    if id != expected then Err(TemporalSubstreamOrderMismatch)
    else
      var (codec, channels) :- SubstreamPlan(e.descriptors.codecConfigs, e.descriptors.audioElements, id);
      var _ :- CheckFits(t, codec.numSamplesPerFrame);
      var _ :- CheckFrame(codec, channels, frame.1);
      Ok(IntoObu(AudioFrame(id, frame.1.bytes), t))
  }

  /** The frames from number `i` on, each against the substream declared at its place. */
  function LowerFrames(e: Encoder, input: TemporalUnitInput, expected: seq<u32>, i: nat): Result<seq<Obu<AudioFrame>>>
    requires |input.frames| == |expected| && i <= |expected|
    decreases |expected| - i
  {
    if i == |expected| then Ok([])
    else
      var frame :- LowerFrame(e, input.frames[i], expected[i], input.trimming);
      var rest :- LowerFrames(e, input, expected, i + 1);
      Ok([frame] + rest)
  }

  function Handles(input: TemporalUnitInput): (handles: seq<SubstreamHandle>)
    ensures |handles| == |input.frames|
  {
    seq(|input.frames|, i requires 0 <= i < |input.frames| => input.frames[i].0)
  }

  // ------------------------------------------------------------- the parameter blocks

  /** `validate_submitted_parameter_block`: no zero duration where the block carries durations itself. */
  function CheckSubmitted(definition: ParamDefinition, block: ParameterBlock): Result<()> {
    if !definition.Mode() || block.durationFields.None? then Ok(())
    else
      var fields := block.durationFields.value;
      Require(
        && fields.duration != 0 && block.subblocks != []
        && (fields.constantSubblockDuration == 0 ==> forall s | s in block.subblocks :: s.duration != Some(0)),
        SubblockDurationMismatch)
  }

  function CheckBlock(e: Encoder, definitions: Registry, submitted: SubmittedBlock, seen: seq<u32>): Result<u32> {
    var id :- ParameterIdFromHandle(e, submitted.parameter, definitions);
    if submitted.block.parameterId != id then Err(ParameterIdMismatch)
    else if id in seen then Err(DuplicateTemporalParameterBlock)
    else if Get(definitions, id).None? then Err(UnknownTemporalParameterHandle)
    else
      var Registered(definition, context) := Get(definitions, id).value;
      var _ :- CheckSubmitted(definition, submitted.block);
      var _ :- WParameterBlock([], definition, context, submitted.block);
      if definition.Mode() && submitted.block.durationFields.Some? &&
         Some(submitted.block.durationFields.value.duration) != FrameSize(e)
      then Err(ParameterBlockDurationMismatch)
      else Ok(id)
  }

  function BlockObu(block: ParameterBlock): Obu<ParameterBlock> {
    Obu(ObuHeader.New(ParameterBlockObu), block, [])
  }

  /** The ids of the blocks, after the ones seen. */
  function CheckBlocks(e: Encoder, definitions: Registry, blocks: seq<SubmittedBlock>, seen: seq<u32>): Result<seq<u32>>
    decreases |blocks|
  {
    if blocks == [] then Ok(seen)
    else
      var id :- CheckBlock(e, definitions, blocks[0], seen);
      CheckBlocks(e, definitions, blocks[1..], seen + [id])
  }

  function BlockObus(blocks: seq<SubmittedBlock>): (obus: seq<Obu<ParameterBlock>>)
    ensures |obus| == |blocks|
  {
    seq(|blocks|, i requires 0 <= i < |blocks| => BlockObu(blocks[i].block))
  }

  /** The first unit fixes the parameters; a later one has as many ids, all of them expected. */
  function CheckCoverage(expected: Option<seq<u32>>, ids: seq<u32>): Result<seq<u32>> {
    if expected.None? then Ok(ids)
    else if |ids| != |expected.value| || exists id | id in ids :: id !in expected.value
    then Err(ParameterSubstreamCoverageMismatch)
    else Ok(expected.value)
  }

  /** `preflight`: the unit to write and the progress it makes, or the first thing wrong with it. */
  function Preflight(e: Encoder, progress: Progress, input: TemporalUnitInput): Result<(TemporalUnit, Progress)> {
    if !Distinct(Handles(input)) then Err(DuplicateTemporalSubstream)
    else if |input.frames| != |DeclaredSubstreams(e)| then Err(MissingTemporalSubstream)
    else
      var frames :- LowerFrames(e, input, DeclaredSubstreams(e), 0);
      var trims :- StepTrim(FrameSize(e), OpusPreSkip(e), progress.trims, input.trimming);
      var ids :- CheckBlocks(e, FromDescriptors(e.descriptors), input.parameterBlocks, []);
      var covered :- CheckCoverage(progress.parameterIds, ids);
      Ok((TemporalUnit(false, BlockObus(input.parameterBlocks), frames), Progress(Some(covered), trims)))
  }

  /** The units of a run of accepted inputs, and the progress after them. */
  function AcceptAll(e: Encoder, inputs: seq<TemporalUnitInput>): Result<(seq<TemporalUnit>, Progress)> {
    if inputs == [] then Ok(([], NO_PROGRESS))
    else
      var (units, progress) :- AcceptAll(e, inputs[..|inputs| - 1]);
      var (unit, next) :- Preflight(e, progress, inputs[|inputs| - 1]);
      Ok((units + [unit], next))
  }

  // --------------------------------------------------------------- facts of one unit

  lemma {:induction false} LoweredFrames(e: Encoder, input: TemporalUnitInput, expected: seq<u32>, i: nat)
    requires |input.frames| == |expected| && i <= |expected| && LowerFrames(e, input, expected, i).Ok?
    ensures var frames := LowerFrames(e, input, expected, i).value;
            && |frames| == |expected| - i
            && forall k | 0 <= k < |frames| ::
                 LowerFrame(e, input.frames[i + k], expected[i + k], input.trimming) == Ok(frames[k])
    decreases |expected| - i
  {
    hide LowerFrame;
    if i < |expected| {
      LoweredFrames(e, input, expected, i + 1);
    }
  }

  /** Each frame is the canonical OBU of the substream declared at its place, with the unit's trim. */
  lemma FramesOfUnit(e: Encoder, input: TemporalUnitInput, expected: seq<u32>)
    requires |input.frames| == |expected| && LowerFrames(e, input, expected, 0).Ok?
    ensures var frames := LowerFrames(e, input, expected, 0).value;
            && |frames| == |expected| && SubstreamIds(frames) == expected
            && forall k | 0 <= k < |frames| ::
                 && frames[k].payload == AudioFrame(expected[k], input.frames[k].1.bytes)
                 && frames[k] == IntoObu(frames[k].payload, input.trimming)
  {
    hide SubstreamIdFromHandle, SubstreamPlan, CheckFits, CheckFrame, IntoObu;
    LoweredFrames(e, input, expected, 0);
    var frames := LowerFrames(e, input, expected, 0).value;
    forall k | 0 <= k < |frames|
      ensures frames[k] == IntoObu(AudioFrame(expected[k], input.frames[k].1.bytes), input.trimming)
    {
      assert LowerFrame(e, input.frames[0 + k], expected[0 + k], input.trimming) == Ok(frames[k]);
    }
    IntoObuKeepsIds(frames, expected, input);
  }

  lemma IntoObuKeepsIds(frames: seq<Obu<AudioFrame>>, expected: seq<u32>, input: TemporalUnitInput)
    requires |frames| == |expected| == |input.frames|
    requires forall k | 0 <= k < |frames| ::
               frames[k] == IntoObu(AudioFrame(expected[k], input.frames[k].1.bytes), input.trimming)
    ensures SubstreamIds(frames) == expected
    ensures forall k | 0 <= k < |frames| :: frames[k].payload == AudioFrame(expected[k], input.frames[k].1.bytes)
  {
  }

  function BlockIds(blocks: seq<SubmittedBlock>): (ids: seq<u32>)
    ensures |ids| == |blocks|
  {
    seq(|blocks|, i requires 0 <= i < |blocks| => blocks[i].block.parameterId)
  }

  /** The block passed every check of its own, whatever came before it. */
  ghost predicate Passed(e: Encoder, definitions: Registry, submitted: SubmittedBlock) {
    exists before :: CheckBlock(e, definitions, submitted, before).Ok?
  }

  /** The ids are the blocks' own, none twice, and each block passed on its own. */
  lemma {:induction false} CheckedBlocks(
      e: Encoder, definitions: Registry, blocks: seq<SubmittedBlock>, seen: seq<u32>)
    requires CheckBlocks(e, definitions, blocks, seen).Ok? && Distinct(seen)
    ensures CheckBlocks(e, definitions, blocks, seen).value == seen + BlockIds(blocks)
    ensures Distinct(seen + BlockIds(blocks))
    ensures forall k | 0 <= k < |blocks| :: Passed(e, definitions, blocks[k])
    decreases |blocks|
  {
    hide CheckBlock;
    if blocks == [] {
      assert seen + [] == seen;
    } else {
      CheckedBlock(e, definitions, blocks[0], seen);
      assert Passed(e, definitions, blocks[0]);
      var id := blocks[0].block.parameterId;
      CheckedBlocks(e, definitions, blocks[1..], seen + [id]);
      assert seen + [id] + BlockIds(blocks[1..]) == seen + BlockIds(blocks);
      hide Passed;
      forall k | 0 <= k < |blocks| ensures Passed(e, definitions, blocks[k]) {
        if k > 0 {
          assert blocks[k] == blocks[1..][k - 1];
        }
      }
    }
  }

  lemma CheckedBlock(e: Encoder, definitions: Registry, submitted: SubmittedBlock, seen: seq<u32>)
    requires CheckBlock(e, definitions, submitted, seen).Ok?
    ensures CheckBlock(e, definitions, submitted, seen).value == submitted.block.parameterId
    ensures submitted.block.parameterId !in seen
  {
    hide ParameterIdFromHandle, WParameterBlock, CheckSubmitted;
  }

  /** How long a block lasts: its own duration, or its definition's. */
  function BlockDuration(definition: ParamDefinition, block: ParameterBlock): nat {
    if definition.Mode() then if block.durationFields.Some? then block.durationFields.value.duration else 0
    else definition.durationFields.value.duration
  }

  /** Every definition that carries a duration carries one frame, and every block is a mix gain. */
  predicate GainsOfOneFrame(definitions: Registry, frameSize: Option<u32>) {
    forall r | r in definitions ::
      && r.context.MixGainContext?
      && (!r.definition.Mode() ==> Some(r.definition.durationFields.value.duration) == frameSize)
  }

  lemma ValidBlock(definition: ParamDefinition, context: Context, block: ParameterBlock)
    requires WParameterBlock([], definition, context, block).Ok? && context.MixGainContext?
    ensures block.durationFields.Some? == definition.Mode()
    ensures BlockClean(block)
  {
    hide WMany, ExpectedCount, CheckSingleSubblock, DurationSum, WBlockHead;
    forall s | s in block.subblocks ensures KindMatches(context, s.data) {
    }
  }

  lemma BlockLasts(e: Encoder, definitions: Registry, submitted: SubmittedBlock, seen: seq<u32>)
    requires CheckBlock(e, definitions, submitted, seen).Ok? && GainsOfOneFrame(definitions, FrameSize(e))
    ensures var governing := Get(definitions, submitted.block.parameterId);
            && governing.Some? && BlockClean(submitted.block)
            && Some(BlockDuration(governing.value.definition, submitted.block)) == FrameSize(e)
  {
    hide ParameterIdFromHandle, WParameterBlock, CheckSubmitted, BlockClean;
    var id := submitted.block.parameterId;
    CheckedBlock(e, definitions, submitted, seen);
    var Registered(definition, context) := Get(definitions, id).value;
    ValidBlock(definition, context, submitted.block);
  }

  lemma UnitFacts(e: Encoder, progress: Progress, input: TemporalUnitInput)
    requires Preflight(e, progress, input).Ok?
    ensures var (unit, next) := Preflight(e, progress, input).value;
            && !unit.hasDelimiter && unit.parameterBlocks == BlockObus(input.parameterBlocks)
            && SubstreamIds(unit.audioFrames) == DeclaredSubstreams(e)
            && (forall k | 0 <= k < |unit.audioFrames| ::
                  unit.audioFrames[k] == IntoObu(unit.audioFrames[k].payload, input.trimming))
            && next.trims == StepTrim(FrameSize(e), OpusPreSkip(e), progress.trims, input.trimming).value
            && Distinct(BlockIds(input.parameterBlocks))
            && CheckCoverage(progress.parameterIds, BlockIds(input.parameterBlocks)).Ok?
            && next.parameterIds == Some(CheckCoverage(progress.parameterIds, BlockIds(input.parameterBlocks)).value)
            && forall k | 0 <= k < |input.parameterBlocks| ::
                 Passed(e, FromDescriptors(e.descriptors), input.parameterBlocks[k])
  {
    hide Passed, DeclaredSubstreams, LowerFrames, StepTrim, CheckBlocks, CheckCoverage, FromDescriptors, CheckBlock,
         IntoObu;
    FramesOfUnit(e, input, DeclaredSubstreams(e));
    CheckedBlocks(e, FromDescriptors(e.descriptors), input.parameterBlocks, []);
    assert [] + BlockIds(input.parameterBlocks) == BlockIds(input.parameterBlocks);
  }
}
