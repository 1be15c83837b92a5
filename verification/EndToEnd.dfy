/** The whole encoder from declarations to bytes, and back through the parser. */
module EndToEnd {
  import opened Core
  import opened Sequences
  import opened Parts
  import opened Streaming
  import opened TrimPlans
  import opened Findings
  import opened Declarations
  import opened EncoderBuilders
  import opened TemporalInputs
  import opened Timelines
  import opened EncodingWriters
  import Builds
  import opened SequenceHeaders
  import opened Profiles
  import opened Formats
  import opened FormatWriting
  import opened Carrying

  // ------------------------------------------------------------ the first eight bytes

  /**
    How a stream of this profile opens: an IA Sequence Header OBU of type 31 with no flags and six bytes, "iamf"
    and the profile twice.
  */
  predicate Opens(bytes: seq<u8>, profile: Profile) {
    var p := match profile case Simple => 0 case Base => 1 case BaseEnhanced => 2 case ReservedProfile(raw) => raw;
    bytes[..if |bytes| >= 8 then 8 else 0] == [0xf8, 0x06, 0x69, 0x61, 0x6d, 0x66, p, p]
  }

  lemma HeaderOpens(p: u8)
    ensures SeqObuFormat(FlatHeader(IaSequenceHeader(IA_CODE, p, p, []))) == [0xf8, 0x06, 0x69, 0x61, 0x6d, 0x66, p, p]
  {
    var code := Big(IA_CODE, 4);
    assert code == [0x69, 0x61, 0x6d, 0x66] by {
      assert Big(IA_CODE / 256 / 256, 2) == [0x69, 0x61];
    }
    assert HeaderFormat(IaSequenceHeader(IA_CODE, p, p, [])) == [0x69, 0x61, 0x6d, 0x66, p, p];
  }

  /** Whatever the units, what is written for a build opens with its profile, and is the format's throughout. */
  lemma BuiltOpens(d: Declared, units: seq<TemporalUnit>)
    requires Builds.Build(d).Ok? && WriteSequence(FromParts(Builds.Build(d).value.0.descriptors, units)).Ok?
    ensures var s := FromParts(Builds.Build(d).value.0.descriptors, units);
            && WriteSequence(s).value == SequenceFormat(s)
            && Opens(WriteSequence(s).value, Builds.Build(d).value.1.sequenceProfile)
  {
    hide Builds.Build, WriteSequence, SeqObuFormat, FlatUnits, LowerElements, LowerMixes, ResolveReferences;
    hide Builds.Frozen, SequenceProfile;
    var r, profile := Builds.BuildFreezes(d);
    Builds.FrozenResolves(r);
    var s := FromParts(Builds.Build(d).value.0.descriptors, units);
    WritesTheFormat(s);
    HeaderOpens(profile.ToWire());
    var header := FlatHeader(IaSequenceHeader(IA_CODE, profile.ToWire(), profile.ToWire(), []));
    assert s[0] == header;
    assert SequenceFormat(s)[..8] == SeqObuFormat(header);
  }

  /**
    What one encoding that succeeds leaves behind: an encoder built from the declarations with nothing to
    report, every input accepted under an allowed trim plan, and bytes that are those of the format, open with
    the code of IAMF and the profile of the manifest, and parse to the descriptors and then, in turn, the blocks
    and frames of each input.
  */
  ghost predicate Encoded(
      d: Declared, inputs: seq<TemporalUnitInput>, r: Result<(Encoder, IdManifest)>, before: seq<u8>, after: seq<u8>)
  {
    hide Builds.Build, SetClean, AcceptAll, ParseSequence, FromParts, OpusPreSkip, SequenceFormat, Opens, Carries;
    r.Ok? ==>
      var e := r.value.0;
      && Builds.Build(d) == r && SetClean(e.descriptors)
      && AcceptAll(e, inputs).Ok? && Allowed(FrameOf(e), OpusPreSkip(e), Trims(inputs))
      && before <= after
      && var s, bytes := FromParts(e.descriptors, AcceptAll(e, inputs).value.0), after[|before|..];
         && ParseSequence(bytes) == Ok(s) && Carries(s, e.descriptors, inputs)
         && bytes == SequenceFormat(s) && Opens(bytes, r.value.1.sequenceProfile)
  }

  /** Build, start, push everything, finish; against any sink script. */
  method Encode(builder: EncoderBuilder, sink: Sink, inputs: seq<TemporalUnitInput>)
      returns (r: Result<(Encoder, IdManifest)>)
    modifies builder, sink
    ensures hide Encoded; Encoded(old(builder.Collected()), inputs, r, old(sink.accepted), sink.accepted)
  {
    hide Builds.Build, Ready, Built, SetClean, AcceptAll, ParseSequence, FromParts, WriteSequence, Allowed, Covered,
         Ended, Preflight, UnitBytes, OpusPreSkip, Started, Appended, FlatDescriptors, SequenceFormat, Opens, Carries;
    ghost var declared, before := builder.Collected(), sink.accepted;
    var built := builder.Build();
    if built.Err? {
      return built;
    }
    var e := built.value.0;
    ItWasBuilt(declared, e);
    var writer :- Start(e, sink);
    for i := 0 to |inputs|
      invariant writer.Valid() && fresh(writer) && fresh(writer.sequence) && fresh(writer.sequence.scratch)
      invariant writer.encoder == e && writer.sequence.sink == sink && writer.sequence.base == before
      invariant writer.inputs == inputs[..i]
    {
      var _ :- writer.PushTemporalUnit(inputs[i]);
      assert inputs[..i + 1] == inputs[..i] + [inputs[i]];
    }
    assert inputs[..|inputs|] == inputs;
    var _ :- writer.Finish();
    assert sink.accepted[|before|..] == writer.sequence.committed;
    BuiltOpens(declared, writer.sequence.units);
    RunCarries(e, inputs);
    r := built;
  }

  lemma ItWasBuilt(d: Declared, e: Encoder)
    requires Builds.Build(d).Ok? && Builds.Build(d).value.0 == e
    ensures Built(e) && SetClean(e.descriptors)
  {
    hide Builds.Build, SetClean, Ready;
    BuiltIsReady(e);
  }
}
