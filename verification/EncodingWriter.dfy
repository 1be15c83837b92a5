/**
  The encoding writer: submitted units are lowered and judged whole before the sequence writer sees them, and
  what it leaves in the sink parses back to exactly what was accepted.
*/
module EncodingWriters {
  import opened Core
  import opened Obus
  import opened ParameterBlocks
  import opened AudioFrames
  import opened Sequences
  import opened Parts
  import opened Streams
  import opened Ceilings
  import opened Rehearsals
  import opened BitWriters
  import opened PayloadWriters
  import opened Streaming
  import opened TrimPlans
  import opened Declarations
  import opened TemporalInputs
  import opened Timelines
  import Builds

  class EncodingWriter {
    const sequence: SequenceWriter
    const encoder: Encoder
    var progress: Progress

    /** The inputs accepted so far. */
    ghost var inputs: seq<TemporalUnitInput>

    /** The sequence writer holds exactly the units the accepted inputs lower to, and the progress is theirs. */
    ghost predicate Valid()
      reads this, sequence, sequence.sink, sequence.scratch
    {
      && sequence.Valid() && sequence.state != Fresh && Ready(encoder)
      && sequence.descriptors == encoder.descriptors
      && AcceptAll(encoder, inputs) == Ok((sequence.units, progress))
    }

    constructor (sequence: SequenceWriter, encoder: Encoder)
      requires sequence.Valid() && sequence.state == DescriptorsWritten && Ready(encoder)
      requires sequence.descriptors == encoder.descriptors && sequence.units == []
      ensures Valid() && this.sequence == sequence && this.encoder == encoder && inputs == []
    {
      hide Ready, sequence.Valid;
      this.sequence := sequence;
      this.encoder := encoder;
      progress := NO_PROGRESS;
      inputs := [];
    }

    /** `declared_substreams`. */
    method Declared() returns (ids: seq<u32>)
      ensures ids == DeclaredSubstreams(encoder)
    {
      hide AddNew;
      ids := [];
      var elements := encoder.descriptors.audioElements;
      assert elements[0..] == elements;
      for i := 0 to |elements|
        invariant SubstreamsFrom(elements[i..], ids) == DeclaredSubstreams(encoder)
      {
        assert elements[i..][0] == elements[i] && elements[i..][1..] == elements[i + 1..];
        ids := AddFresh(ids, elements[i].audioSubstreamIds);
      }
    }

    /** Every handle at most once. */
    static method HandlesDiffer(frames: seq<(SubstreamHandle, FrameInput)>, ghost input: TemporalUnitInput)
      returns (ok: bool)
      requires frames == input.frames
      ensures ok == Distinct(Handles(input))
    {
      var submitted: seq<SubstreamHandle> := [];
      for i := 0 to |frames|
        invariant submitted == Handles(input)[..i] && Distinct(submitted)
      {
        if frames[i].0 in submitted {
          ghost var k :| 0 <= k < i && submitted[k] == frames[i].0;
          assert Handles(input)[k] == Handles(input)[i];
          return false;
        }
        submitted := submitted + [frames[i].0];
      }
      assert Handles(input)[..|frames|] == Handles(input);
      ok := true;
    }

    /** The frames, each against the substream declared at its place. */
    method LowerEach(input: TemporalUnitInput, expected: seq<u32>) returns (r: Result<seq<Obu<AudioFrame>>>)
      requires |input.frames| == |expected|
      ensures r == LowerFrames(encoder, input, expected, 0)
    {
      hide LowerFrame;
      var frames: seq<Obu<AudioFrame>> := [];
      PrefixFrames([], LowerFrames(encoder, input, expected, 0));
      for i := 0 to |expected|
        invariant Following(frames, LowerFrames(encoder, input, expected, i)) ==
                  LowerFrames(encoder, input, expected, 0)
      {
        ghost var rest := LowerFrames(encoder, input, expected, i + 1);
        var frame :- LowerFrame(encoder, input.frames[i], expected[i], input.trimming);
        PrefixSnoc(frames, frame, rest);
        frames := frames + [frame];
      }
      assert frames + [] == frames;
      r := Ok(frames);
    }

    /** The blocks, each against its definition, with no parameter twice. */
    method CheckEachBlock(blocks: seq<SubmittedBlock>, definitions: Registry) returns (r: Result<seq<u32>>)
      ensures r == CheckBlocks(encoder, definitions, blocks, [])
    {
      hide CheckBlock;
      var ids: seq<u32> := [];
      assert blocks[0..] == blocks;
      for i := 0 to |blocks|
        invariant CheckBlocks(encoder, definitions, blocks[i..], ids) == CheckBlocks(encoder, definitions, blocks, [])
      {
        assert blocks[i..][0] == blocks[i] && blocks[i..][1..] == blocks[i + 1..];
        var id :- CheckOneBlock(blocks[i], definitions, ids);
        ids := ids + [id];
      }
      r := Ok(ids);
    }

    /** One block, validated by writing it to a scratch buffer. */
    method CheckOneBlock(submitted: SubmittedBlock, definitions: Registry, seen: seq<u32>) returns (r: Result<u32>)
      ensures r == CheckBlock(encoder, definitions, submitted, seen)
    {
      hide WParameterBlock, CheckSubmitted;
      var id :- ParameterIdFromHandle(encoder, submitted.parameter, definitions);
      if submitted.block.parameterId != id {
        return Err(ParameterIdMismatch);
      }
      if id in seen {
        return Err(DuplicateTemporalParameterBlock);
      }
      var governing := Get(definitions, id);
      var definition := governing.value.definition;
      var _ :- CheckSubmitted(definition, submitted.block);
      var scratch := new BitWriter();
      var _ :- WriteParameterBlock(scratch, definition, governing.value.context, submitted.block);
      var fields := submitted.block.durationFields;
      if definition.Mode() && fields.Some? && Some(fields.value.duration) != FrameSize(encoder) {
        return Err(ParameterBlockDurationMismatch);
      }
      r := Ok(id);
    }

    /** `preflight`: nothing but the result changes. */
    method Judge(input: TemporalUnitInput) returns (r: Result<(TemporalUnit, Progress)>)
      ensures r == Preflight(encoder, progress, input)
    {
      hide DeclaredSubstreams, LowerFrames, StepTrim, CheckBlocks, CheckCoverage, FromDescriptors, Handles;
      var distinct := HandlesDiffer(input.frames, input);
      if !distinct {
        return Err(DuplicateTemporalSubstream);
      }
      var expected := Declared();
      if |input.frames| != |expected| {
        return Err(MissingTemporalSubstream);
      }
      var frames :- LowerEach(input, expected);
      var trims :- StepTrim(FrameSize(encoder), OpusPreSkip(encoder), progress.trims, input.trimming);
      var definitions := RegistryFrom(encoder.descriptors);
      var ids :- CheckEachBlock(input.parameterBlocks, definitions);
      var covered :- CheckCoverage(progress.parameterIds, ids);
      r := Ok((TemporalUnit(false, BlockObus(input.parameterBlocks), frames), Progress(Some(covered), trims)));
    }

    /**
      `push_temporal_unit`: a unit that fails any check changes neither the sink nor the progress. One that
      passes every check is still refused, for its size alone and with nothing written, exactly when one of its
      OBUs is over the ceiling. Any other is written whole, or cut short: by the sink refusing a write of this
      unit, or by the byte counter.
    */
    method PushTemporalUnit(input: TemporalUnitInput) returns (r: Result<()>)
      requires Valid()
      modifies this, sequence, sequence.sink, sequence.scratch
      ensures Valid()
      ensures r.Ok? ==> inputs == old(inputs) + [input] && sequence.sink.refusals == old(sequence.sink.refusals)
      ensures r.Err? ==> inputs == old(inputs) && progress == old(progress)
      ensures old(sequence.state) == Poisoned ==>
                && r == Err(SequenceWriterPoisoned) && sequence.state == Poisoned
                && sequence.sink.accepted == old(sequence.sink.accepted)
      ensures var judged := Preflight(encoder, old(progress), input);
              old(sequence.state) == DescriptorsWritten ==>
                && (judged.Err? ==>
                      && r == Err(judged.error) && sequence.state == DescriptorsWritten
                      && sequence.sink.accepted == old(sequence.sink.accepted))
                && (judged.Ok? ==>
                      var unit, definitions := judged.value.0, FromDescriptors(encoder.descriptors);
                      && (!UnitFits(definitions, unit) ==>
                            && r == Err(ObuTooLarge) && sequence.state == DescriptorsWritten
                            && sequence.sink.accepted == old(sequence.sink.accepted))
                      && (UnitFits(definitions, unit) ==>
                            && UnitBytes(definitions, unit).Ok?
                            && Ended(r, UnitBytes(definitions, unit), DescriptorsWritten, sequence.state,
                                     old(sequence.sink.accepted), sequence.sink.accepted,
                                     r.Err? && sequence.CutShort(r.error, old(sequence.sink.refusals)))))
    {
      hide Preflight, UnitBytes, UnitFits, Ended, Ready, AcceptAll, FromDescriptors, sequence.Valid;
      if sequence.state == Poisoned {
        return Err(SequenceWriterPoisoned);
      }
      var judged :- Judge(input);
      var (unit, next) := judged;
      ghost var wanted, before := UnitBytes(sequence.definitions, unit), sequence.sink.accepted;
      DefinitionsAre(sequence);
      UnitBytesFit(encoder, progress, input);
      r := sequence.PushTemporalUnit(unit);
      EndedRefused(r, wanted, sequence.state, before, sequence.sink.accepted,
                   r.Err? && sequence.CutShort(r.error, old(sequence.sink.refusals)));
      StillBegun(r, wanted, sequence.state, before, sequence.sink.accepted,
                 r.Err? && sequence.CutShort(r.error, old(sequence.sink.refusals)));
      if r.Ok? {
        AcceptSnoc(encoder, inputs, input);
        progress := next;
        inputs := inputs + [input];
      }
    }

    /**
      `finish`, and with it the end-to-end theorem: after a build, a start, any pushes and a finish that all
      succeed, what this writer added to the sink parses to exactly the descriptors and the accepted units,
      the accepted trims form an allowed plan, and every parameter has lasted exactly as long as the audio.
    */
    method Finish() returns (r: Result<()>)
      requires Valid()
      ensures sequence.state == Poisoned ==> r == Err(SequenceWriterPoisoned)
      ensures sequence.state != Poisoned ==>
                r == if !Allowed(FrameOf(encoder), OpusPreSkip(encoder), Trims(inputs))
                     then Err(OpusStartTrimShortOfPreSkip)
                     else if sequence.sink.flushFails then Err(SinkWrite) else Ok(())
      ensures r.Ok? ==>
                && sequence.sink.accepted == sequence.base + sequence.committed
                && WriteSequence(FromParts(encoder.descriptors, sequence.units)) == Ok(sequence.committed)
                && ParseSequence(sequence.committed) == Ok(FromParts(encoder.descriptors, sequence.units))
                && |sequence.units| == |inputs|
                && forall id :: Covered(encoder, sequence.units, FirstIds(inputs), id)
    {
      hide Ready, Allowed, ParseSequence, WriteSequence, FromParts, sequence.Valid, CheckFinish, AcceptAll, OpusPreSkip,
           Covered;
      if sequence.state == Poisoned {
        return Err(SequenceWriterPoisoned);
      }
      FrameIs(encoder);
      RunTrimsAllowed(encoder, inputs);
      FinishError(OpusPreSkip(encoder), progress.trims);
      var _ :- CheckFinish(OpusPreSkip(encoder), progress.trims);
      r := sequence.Finish();
      if r.Ok? {
        RunParsesBack(encoder, inputs);
        forall id ensures Covered(encoder, sequence.units, FirstIds(inputs), id) {
          RunCovers(encoder, inputs, id);
        }
        CoverageIsComplete(encoder, inputs, 0);
      }
    }
  }

  lemma DefinitionsAre(sequence: SequenceWriter)
    requires sequence.Valid() && sequence.state == DescriptorsWritten
    ensures sequence.definitions == FromDescriptors(sequence.descriptors)
  {
    hide FromDescriptors;
  }

  /** The bytes of an accepted unit are withheld for its size alone. */
  lemma UnitBytesFit(e: Encoder, progress: Progress, input: TemporalUnitInput)
    requires Ready(e) && Preflight(e, progress, input).Ok?
    ensures var unit, definitions := Preflight(e, progress, input).value.0, FromDescriptors(e.descriptors);
            if UnitFits(definitions, unit) then UnitBytes(definitions, unit).Ok?
            else UnitBytes(definitions, unit) == Err(ObuTooLarge)
  {
    hide Ready, Preflight, UnitFits, WAll, FlatUnit, FromDescriptors, ValidateTemporalUnit;
    var unit := Preflight(e, progress, input).value.0;
    UnitValid(e, progress, input);
    UnitIsTheCeiling(e, progress, input);
    AppendedIs(FromDescriptors(e.descriptors), FlatUnit(unit));
  }

  lemma EndedRefused(r: Result<()>, wanted: Result<seq<u8>>, now: State, before: seq<u8>, after: seq<u8>, fault: bool)
    requires Ended(r, wanted, DescriptorsWritten, now, before, after, fault)
    ensures wanted.Err? ==> r == Err(wanted.error) && now == DescriptorsWritten && after == before
  {
  }

  /** The frame size of a built encoder. */
  function FrameOf(e: Encoder): u32 {
    if FrameSize(e).Some? then FrameSize(e).value else 0
  }

  lemma FrameIs(e: Encoder)
    requires Ready(e)
    ensures FrameSize(e).Some? && FrameOf(e) == FrameSize(e).value
  {
    hide Ready;
    ReadyBasics(e);
  }

  lemma FinishError(preSkip: Option<u16>, s: TrimState)
    ensures CheckFinish(preSkip, s).Err? ==> CheckFinish(preSkip, s) == Err(OpusStartTrimShortOfPreSkip)
  {
  }

  /** One parameter or substream id over a run: as many ticks as samples, as many frames as units, or none. */
  ghost predicate Covered(e: Encoder, units: seq<TemporalUnit>, ids: seq<u32>, id: u32) {
    && Ticks(FromDescriptors(e.descriptors), units, id) == (if id in ids then |units| * FrameOf(e) else 0)
    && FrameCount(units, id) == if id in DeclaredSubstreams(e) then |units| else 0
  }

  lemma RunCovers(e: Encoder, inputs: seq<TemporalUnitInput>, id: u32)
    requires Ready(e) && AcceptAll(e, inputs).Ok?
    ensures Covered(e, AcceptAll(e, inputs).value.0, FirstIds(inputs), id)
  {
    hide Ready, AcceptAll, DeclaredSubstreams, FromDescriptors, Ticks, FrameCount;
    FrameIs(e);
    CoverageIsComplete(e, inputs, id);
  }

  method AddFresh(seen: seq<u32>, ids: seq<u32>) returns (r: seq<u32>)
    ensures r == AddNew(seen, ids)
  {
    r := seen;
    assert ids[0..] == ids;
    for i := 0 to |ids|
      invariant AddNew(r, ids[i..]) == AddNew(seen, ids)
    {
      assert ids[i..][0] == ids[i] && ids[i..][1..] == ids[i + 1..];
      if ids[i] !in r {
        r := r + [ids[i]];
      }
    }
  }

  ghost function Following(
      done: seq<Obu<AudioFrame>>, rest: Result<seq<Obu<AudioFrame>>>): Result<seq<Obu<AudioFrame>>>
  {
    if rest.Err? then rest else Ok(done + rest.value)
  }

  lemma PrefixFrames(done: seq<Obu<AudioFrame>>, rest: Result<seq<Obu<AudioFrame>>>)
    requires done == []
    ensures Following(done, rest) == rest
  {
    if rest.Ok? {
      assert done + rest.value == rest.value;
    }
  }

  lemma PrefixSnoc(done: seq<Obu<AudioFrame>>, frame: Obu<AudioFrame>, rest: Result<seq<Obu<AudioFrame>>>)
    ensures Following(done + [frame], rest) == if rest.Err? then rest else Ok(done + ([frame] + rest.value))
  {
    if rest.Ok? {
      assert done + [frame] + rest.value == done + ([frame] + rest.value);
    }
  }

  lemma AcceptSnoc(e: Encoder, inputs: seq<TemporalUnitInput>, input: TemporalUnitInput)
    requires AcceptAll(e, inputs).Ok?
    ensures var (units, progress) := AcceptAll(e, inputs).value;
            var judged := Preflight(e, progress, input);
            judged.Ok? ==> AcceptAll(e, inputs + [input]) == Ok((units + [judged.value.0], judged.value.1))
  {
    hide Preflight;
    assert (inputs + [input])[..|inputs|] == inputs;
  }

  lemma StillBegun(r: Result<()>, wanted: Result<seq<u8>>, now: State, before: seq<u8>, after: seq<u8>, fault: bool)
    requires Ended(r, wanted, DescriptorsWritten, now, before, after, fault)
    ensures now != Fresh && (now == DescriptorsWritten || r.Err?)
  {
  }

  /** A build leaves the prologue one way to fail. */
  lemma PrologueTooLarge(e: Encoder)
    requires Built(e)
    ensures var wanted := Appended([], FlatDescriptors(e.descriptors));
            wanted.Err? ==> wanted == Err(ObuTooLarge)
  {
    hide Builds.Build, WAll, FlatDescriptors, StartFits, NoIdGrows, ResolveReferences;
    var d :| Builds.Build(d).Ok? && Builds.Build(d).value.0 == e;
    var _ := StartIsTheCeiling(d);
    AppendedIs([], FlatDescriptors(e.descriptors));
  }

  /** How a start that could be written ends: all of it out, or a prefix, by the sink's refusal or the counter. */
  ghost predicate Started(
      r: Result<()>, wanted: seq<u8>, before: seq<u8>, after: seq<u8>, refusalsBefore: nat, refusals: nat)
  {
    if r.Ok? then after == before + wanted && refusals == refusalsBefore
    else
      && (exists k: nat | k <= |wanted| :: after == before + wanted[..k])
      && ((r.error == SinkWrite && refusals == refusalsBefore + 1) ||
          (r.error == ObuSizeOverflow && refusals == refusalsBefore && |after| - |before| >= U64_LIMIT))
  }

  function Outcome<T>(r: Result<T>): Result<()> {
    if r.Ok? then Ok(()) else Err(r.error)
  }

  lemma StartEnds(
      r: Result<()>, wanted: Result<seq<u8>>, now: State, before: seq<u8>, after: seq<u8>, fault: bool,
      refusalsBefore: nat, refusals: nat)
    requires Ended(r, wanted, Fresh, now, before, after, fault)
    requires r.Ok? ==> refusals == refusalsBefore
    requires fault ==>
               && r.Err?
               && ((r.error == SinkWrite && refusals == refusalsBefore + 1) ||
                   (r.error == ObuSizeOverflow && refusals == refusalsBefore && |after| - |before| >= U64_LIMIT))
    ensures wanted.Ok? ==> Started(r, wanted.value, before, after, refusalsBefore, refusals)
    ensures wanted.Err? ==> r == Err(wanted.error) && after == before
  {
  }

  /**
    `start`: the prologue is written at once, and the writer is only handed out if it went out whole. It fails
    with nothing written exactly when a descriptor is over the ceiling, which is all the rehearsal leaves open.
  */
  method Start(e: Encoder, sink: Sink) returns (r: Result<EncodingWriter>)
    requires Built(e)
    modifies sink
    ensures r.Ok? ==>
              && r.value.Valid() && r.value.encoder == e && r.value.inputs == []
              && fresh(r.value) && fresh(r.value.sequence) && fresh(r.value.sequence.scratch)
              && r.value.sequence.sink == sink && r.value.sequence.base == old(sink.accepted)
              && r.value.sequence.state == DescriptorsWritten
    ensures var wanted := Appended([], FlatDescriptors(e.descriptors));
            && (wanted.Err? ==> r == Err(ObuTooLarge) && sink.accepted == old(sink.accepted))
            && (wanted.Ok? ==>
                  Started(Outcome(r), wanted.value, old(sink.accepted), sink.accepted,
                          old(sink.refusals), sink.refusals))
  {
    hide Ended, Appended, FlatDescriptors, Built, Ready, Started;
    BuiltIsReady(e);
    PrologueTooLarge(e);
    var sequence := new SequenceWriter(sink);
    var pushed := sequence.PushDescriptors(e.descriptors);
    StartEnds(pushed, Appended([], FlatDescriptors(e.descriptors)), sequence.state, old(sink.accepted), sink.accepted,
              pushed.Err? && sequence.CutShort(pushed.error, old(sink.refusals)), old(sink.refusals), sink.refusals);
    var _ :- pushed;
    EndsInOrder(Appended([], FlatDescriptors(e.descriptors)), Fresh, sequence.state, old(sink.accepted),
                sink.accepted, false);
    var writer := new EncodingWriter(sequence, e);
    r := Ok(writer);
  }
}
