/**
  What the builder's checks come to in the numbers of the format: which codec configurations, element
  topologies and gain timings they let through, and so what every build carries.
*/
module BuildRules {
  import opened Core
  import opened Bits
  import opened Layouts
  import opened ParamDefinitions
  import opened CodecConfigs
  import opened AudioElements
  import opened MixPresentations
  import opened Streams
  import opened Findings
  import opened Declarations
  import LanguageTags
  import opened Profiles
  import opened Builds
  import opened Timelines

  // ---------------------------------------------------------------------- layouts

  /** The layouts in the order of their codes. */
  const NAMES: seq<LoudspeakerLayout> := [
    Mono, Stereo, Ch5_1, Ch5_1_2, Ch5_1_4, Ch7_1, Ch7_1_2, Ch7_1_4, Ch3_1_2, Binaural]

  const EXPANDED_NAMES: seq<ExpandedLayout> := [
    Lfe, StereoS, StereoSs, StereoRs, StereoTf, StereoTb, Top4Ch, ExpandedLayout.Ch3_0, Ch9_1_6, StereoF, StereoSi,
    StereoTpSi, Top6Ch]

  /** Channels, substreams, and coupled substreams of each, in the same order. */
  const COUNTS: seq<(nat, nat, nat)> := [
    (1, 1, 0), (2, 1, 1), (6, 4, 2), (8, 5, 3), (10, 6, 4), (8, 5, 3), (10, 6, 4), (12, 7, 5), (6, 4, 2), (2, 1, 1)]

  const EXPANDED_COUNTS: seq<(nat, nat, nat)> := [
    (1, 1, 0), (2, 1, 1), (2, 1, 1), (2, 1, 1), (2, 1, 1), (2, 1, 1), (4, 2, 2), (3, 2, 1), (16, 9, 7), (2, 1, 1),
    (2, 1, 1), (2, 1, 1), (6, 3, 3)]

  /** The row of a layout, by its code; a reserved layout has none. */
  function Row(l: LoudspeakerLayout): Option<(nat, nat, nat)> {
    match l
    case ReservedLayout(_) => None
    case Expanded(e) =>
      if e.ReservedExpanded? || e.Value() >= |EXPANDED_COUNTS| then None else Some(EXPANDED_COUNTS[e.Value()])
    case _ => if l.Value() >= |COUNTS| then None else Some(COUNTS[l.Value()])
  }

  /** Each code is its place in the table. */
  lemma CodesAreTheTables(i: nat)
    ensures i < |NAMES| ==> NAMES[i].Value() == i && !NAMES[i].ReservedLayout? && !NAMES[i].Expanded?
    ensures i < |EXPANDED_NAMES| ==> EXPANDED_NAMES[i].Value() == i && !EXPANDED_NAMES[i].ReservedExpanded?
    ensures |NAMES| == |COUNTS| && |EXPANDED_NAMES| == |EXPANDED_COUNTS|
    ensures forall e: ExpandedLayout :: Expanded(e).Value() == 15
  {
  }

  /** The counts of every layout are its row, and a layout without a row has none. */
  lemma CountsAreTheTables(l: LoudspeakerLayout)
    ensures Row(l).None? ==> l.ChannelCount() == None && l.SingleLayerCounts() == None
    ensures Row(l).Some? ==>
              var (channels, substreams, coupled) := Row(l).value;
              && l.ChannelCount() == Some(channels) && l.SingleLayerCounts() == Some((substreams, coupled))
              && channels == substreams + coupled && coupled <= substreams
  {
  }

  // ------------------------------------------------------------------------ codecs

  /** `roll` frames back are the fewest whose `size` samples each make 3840. */
  predicate LeastRoll(roll: int, size: nat) {
    -roll * size >= 3840 && (-roll - 1) * size < 3840
  }

  predicate LpcmRules(c: CodecConfig, v: LpcmConfig) {
    && c.codecId == [0x69, 0x70, 0x63, 0x6d] && c.audioRollDistance == 0
    && v.flags.Value() <= 1 && v.flags.Canonical() && v.sampleSize in {16, 24, 32}
    && v.sampleRate in {16_000, 32_000, 44_100, 48_000, 96_000}
  }

  predicate FlacRules(c: CodecConfig, v: FlacConfig) {
    && c.codecId == [0x66, 0x4c, 0x61, 0x43] && c.audioRollDistance == 0
    && v.lastMetadataBlock && v.metadataBlockType == 0 && v.metadataDataBlockLength == 34
    && v.minimumBlockSize == v.maximumBlockSize == c.numSamplesPerFrame >= 16
    && v.minimumFrameSize == v.maximumFrameSize == 0
    && 0 < v.sampleRate <= 655_350 && v.numberOfChannels == 1 && 3 <= v.bitsPerSample < 32
    && v.totalSamples < 0x10_0000_0000 && forall i | 0 <= i < 16 :: v.md5[i] == 0
  }

  predicate OpusRules(c: CodecConfig, v: OpusConfig) {
    && c.codecId == [0x4f, 0x70, 0x75, 0x73] && LeastRoll(c.audioRollDistance, c.numSamplesPerFrame)
    && 0 < v.version < 16 && v.outputChannelCount == 2 && v.preSkip > 0 && v.inputSampleRate == 48_000
    && v.outputGain == 0 && v.mappingFamily == 0
  }

  predicate AacRules(c: CodecConfig, v: AacConfig) {
    && c.codecId == [0x6d, 0x70, 0x34, 0x61] && c.audioRollDistance == -1 && c.numSamplesPerFrame == 1024
    && v.bufferSizeDb < 0x100_0000 && v.objectTypeIndication == 0x40 && v.streamType == 5 && !v.upstream
    && v.audioObjectType == 2 && v.samplingFrequencyIndex <= 12 && v.channelConfiguration == 2
    && !v.frameLengthFlag && !v.dependsOnCoreCoder && !v.extensionFlag
  }

  predicate CodecRules(c: CodecConfig) {
    && 0 < c.numSamplesPerFrame <= 96_000
    && match c.decoderConfig
       case Lpcm(v) => LpcmRules(c, v)
       case Flac(v) => FlacRules(c, v)
       case Opus(v) => OpusRules(c, v)
       case AacLc(v) => AacRules(c, v)
       case RawConfig(_, _) => false
  }

  lemma OpusRoll(roll: int, size: u32)
    requires size > 0
    ensures LeastRoll(roll, size) <==> -roll == 3840 / size + if 3840 % size == 0 then 0 else 1
  {
    var q, r, n := 3840 / size, 3840 % size, -roll;
    assert 3840 == q * size + r;
    var least := q + if r == 0 then 0 else 1;
    assert least * size == q * size + if r == 0 then 0 else size;
    assert (least - 1) * size == least * size - size;
    if n > least {
      assert (n - 1) * size >= least * size by { Scaled(least, n - 1, size); }
    } else if n < least {
      assert n * size <= (least - 1) * size by { Scaled(n, least - 1, size); }
    }
  }

  lemma Scaled(a: int, b: int, size: nat)
    requires a <= b
    ensures a * size <= b * size
  {
  }

  /** The codec check, exactly: in particular the roll distance of each codec. */
  lemma CodecChecked(c: CodecConfig)
    ensures CheckCodec(c).Ok? <==> CodecRules(c)
  {
    hide LeastRoll;
    if c.numSamplesPerFrame > 0 {
      OpusRoll(c.audioRollDistance, c.numSamplesPerFrame);
    }
    if c.decoderConfig.Flac? {
      var md5 := c.decoderConfig.flac.md5;
      assert md5 == seq(16, _ => 0) <==> forall i | 0 <= i < 16 :: md5[i] == 0;
    }
  }

  // ------------------------------------------------------------------------- gains

  /** The sample rate a codec configuration puts out; the AAC index runs down by octaves, with 7350 below. */
  function Rate(c: CodecConfig): nat {
    match c.decoderConfig
    case Lpcm(v) => v.sampleRate
    case Flac(v) => v.sampleRate
    case Opus(_) => 48_000
    case AacLc(v) =>
      var i := v.samplingFrequencyIndex;
      if i >= 12 then 7350 else [96_000, 88_200, 64_000][i % 3] / Pow2(i / 3)
    case RawConfig(_, _) => 0
  }

  lemma AacRates(i: u8)
    requires i < 13
    ensures AAC_SAMPLE_RATES[i] == if i == 12 then 7350 else [96_000, 88_200, 64_000][i % 3] / Pow2(i / 3)
  {
    assert Pow2(0) == 1 && Pow2(1) == 2 && Pow2(2) == 4 && Pow2(3) == 8;
  }

  lemma RateIs(c: CodecConfig)
    requires CodecRules(c)
    ensures OutputSampleRate(c) == Some(Rate(c))
  {
    hide Pow2;
    if c.decoderConfig.AacLc? {
      AacRates(c.decoderConfig.aac.samplingFrequencyIndex);
    }
  }

  /** One tick a sample, and a duration of its own is one frame, cut into subblocks that fill it. */
  predicate GainRules(v: ParamDefinition, rate: nat, samples: nat) {
    && v.parameterRate == rate && v.reserved == 0
    && (v.durationFields.Some? ==>
          var fields := v.durationFields.value;
          && fields.duration == samples
          && (fields.constantSubblockDuration == 0 ==>
                Sum(fields.subblockDurations) == samples && 0 !in fields.subblockDurations)
          && (fields.constantSubblockDuration > 0 ==>
                fields.constantSubblockDuration <= samples && fields.subblockDurations == []))
  }

  /** The checks of one gain against the codec, exactly. */
  lemma GainChecked(c: CodecConfig, p: ParameterDeclaration)
    requires CodecRules(c)
    ensures CheckParameter(p).Ok? && CheckTiming(c, Rate(c), p.gain.definition).Ok? <==>
            GainRules(p.gain.definition, Rate(c), c.numSamplesPerFrame)
  {
    hide LpcmRules, FlacRules, OpusRules, AacRules;
    RatePositive(c);
    if p.gain.definition.durationFields.Some? {
      var durations := p.gain.definition.durationFields.value.subblockDurations;
      assert durations == [] ==> Sum(durations) == 0;
    }
  }

  lemma RatePositive(c: CodecConfig)
    requires CodecRules(c)
    ensures 0 < Rate(c) < U32_LIMIT
  {
    hide Pow2;
    if c.decoderConfig.AacLc? {
      AacRates(c.decoderConfig.aac.samplingFrequencyIndex);
    }
  }

  // ---------------------------------------------------------------------- elements

  /** The channel counts of ambisonics up to order 14. */
  const FULL_ORDERS: seq<int> := [1, 4, 9, 16, 25, 36, 49, 64, 81, 100, 121, 144, 169, 196, 225]

  /** One layer with the counts of its layout, or mono-mode ambisonics of a full order. */
  predicate TopologyRules(e: AudioElement) {
    match e.elementType
    case ChannelBased(_, layers) =>
      && |layers| == 1 && !layers[0].reconGainIsPresent && Row(layers[0].layout).Some?
      && layers[0].substreamCount == Row(layers[0].layout).value.1
      && layers[0].coupledSubstreamCount == Row(layers[0].layout).value.2
    case SceneBased(MonoMode(channels, substreams, mapping)) =>
      && channels in FULL_ORDERS
      && 1 <= substreams <= channels == |mapping| && |e.audioSubstreamIds| == substreams
      && (forall i | 0 <= i < |mapping| :: mapping[i] < substreams || mapping[i] == 255)
      && forall k: u8 | k < substreams :: k in mapping
    case _ => false
  }

  lemma TopologyChecked(e: AudioElement)
    ensures CheckTopology(e).Ok? <==> TopologyRules(e)
  {
    match e.elementType
    case ChannelBased(_, layers) =>
      if |layers| == 1 {
        CountsAreTheTables(layers[0].layout);
      }
    case SceneBased(MonoMode(channels, _, _)) => FullOrder(channels);
    case _ =>
  }

  lemma FullOrder(channels: u8)
    ensures channels in FULL_ORDERS <==> exists root: nat | 1 <= root <= 15 :: root * root == channels
  {
    forall i: nat | i < |FULL_ORDERS| ensures FULL_ORDERS[i] == (i + 1) * (i + 1) {
    }
    if channels in FULL_ORDERS {
      var i: nat :| i < |FULL_ORDERS| && FULL_ORDERS[i] == channels;
      var root := i + 1;
      assert root * root == channels;
    }
    if root: nat :| 1 <= root <= 15 && root * root == channels {
      assert FULL_ORDERS[root - 1] == channels;
    }
  }

  // ------------------------------------------------------------------------- builds

  /** The channels of substream `j` of an element: the coupled substreams come first and carry two each. */
  function Carried(e: AudioElement, j: nat): nat {
    match e.elementType
    case ChannelBased(_, layers) => if layers != [] && j < layers[0].coupledSubstreamCount then 2 else 1
    case _ => 1
  }

  predicate ElementRules(e: AudioElement) {
    && TopologyRules(e) && e.params == [] && e.codecConfigId == 0 && e.audioSubstreamIds != []
    && Distinct(e.audioSubstreamIds)
    && (e.elementType.ChannelBased? ==> e.elementType.layers[0].substreamCount == |e.audioSubstreamIds|)
  }

  /** Substream `j` of `a` and substream `k` of `b`, if they are the same, carry the same. */
  predicate SameCarried(a: AudioElement, j: nat, b: AudioElement, k: nat)
    requires j < |a.audioSubstreamIds| && k < |b.audioSubstreamIds|
  {
    a.audioSubstreamIds[j] == b.audioSubstreamIds[k] ==> Carried(a, j) == Carried(b, k)
  }

  predicate SharedAsOne(elements: seq<AudioElement>) {
    forall x, y | 0 <= x < |elements| && 0 <= y < |elements| ::
      forall j, k | 0 <= j < |elements[x].audioSubstreamIds| && 0 <= k < |elements[y].audioSubstreamIds| ::
        SameCarried(elements[x], j, elements[y], k)
  }

  lemma {:induction false} CheckedHandles(d: Declared, e: ElementDeclaration, position: nat)
    requires position <= |e.substreams| && CheckSubstreams(d, e, position).Ok?
    ensures forall k | position <= k < |e.substreams| :: SharedAlike(d, e, k)
    ensures forall i, k | position <= k < |e.substreams| && 0 <= i < k :: e.substreams[i] != e.substreams[k]
    decreases |e.substreams| - position
  {
    hide SharedAlike;
    if position < |e.substreams| {
      CheckedHandles(d, e, position + 1);
      forall i | 0 <= i < position ensures e.substreams[i] != e.substreams[position] {
        assert e.substreams[..position][i] == e.substreams[i];
      }
    }
  }

  /** Everything the checks of one element leave true of it once lowered. */
  lemma ElementObeys(d: Declared, profile: Profile, x: nat)
    requires Frozen(d) && Allocatable(d) && HandlesResolve(d) && x < |d.audioElements|
    ensures ElementRules(LowerElements(d)[x]) && CheckElement(d, d.audioElements[x]).Ok?
  {
    hide Frozen, ValidateDeclarations, HandlesResolve, CheckElement, CheckTopology, TopologyRules, CheckMix, CheckCodec;
    FrozenValidates(d);
    Validated(d);
    LoweredElements(d, profile);
    TopologyChecked(LowerElements(d)[x]);
    ElementCounts(LowerElements(d)[x]);
    SomethingSingle(d, x);
    ElementPlaces(d, x);
  }

  lemma SomethingSingle(d: Declared, x: nat)
    requires Frozen(d) && Allocatable(d) && HandlesResolve(d) && x < |d.audioElements|
    ensures LowerElements(d)[x].codecConfigId == 0 && |d.codecConfigs| == 1
  {
    hide ValidateDeclarations, CheckElement, CheckTopology, CheckMix, CheckCodec, References, GainCount, MixGains;
    hide GainsOf, AllParameters, ParametersKnown;
    Validated(d);
  }

  lemma ElementCounts(e: AudioElement)
    requires ElementClean(e) && TopologyRules(e)
    ensures e.audioSubstreamIds != []
    ensures e.elementType.ChannelBased? ==> e.elementType.layers[0].substreamCount == |e.audioSubstreamIds|
  {
    hide Row;
    if e.elementType.ChannelBased? {
      var layers := e.elementType.layers;
      assert layers[1..] == [];
      assert DeclaredSubstreamCount(layers) == layers[0].substreamCount + DeclaredSubstreamCount([]);
    }
  }

  lemma ElementPlaces(d: Declared, x: nat)
    requires Allocatable(d) && HandlesResolve(d) && x < |d.audioElements| && CheckElement(d, d.audioElements[x]).Ok?
    ensures var e := d.audioElements[x];
            && LowerElements(d)[x].audioSubstreamIds == SubstreamIdsOf(e.substreams)
            && LowerElements(d)[x].elementType == e.element.elementType
            && |e.substreams| == |e.element.audioSubstreamIds|
            && (forall h | h in e.substreams :: h.generation == d.generation)
            && (forall k | 0 <= k < |e.substreams| :: SharedAlike(d, e, k))
    ensures Distinct(LowerElements(d)[x].audioSubstreamIds)
  {
    hide CheckTopology, ElementClean, SharedAlike, References, GainCount;
    var e := d.audioElements[x];
    CheckedElement(d, e);
    CheckedHandles(d, e, 0);
    var ids := LowerElements(d)[x].audioSubstreamIds;
    forall i, k | 0 <= i < k < |ids| ensures ids[i] != ids[k] {
      assert e.substreams[i] in e.substreams && e.substreams[k] in e.substreams;
    }
  }

  lemma CarriedIs(e: AudioElement, j: nat)
    ensures Carried(e, j) == SubstreamChannels(e, j)
  {
  }

  lemma SharedCarried(d: Declared, x: nat, j: nat, y: nat, k: nat)
    requires Allocatable(d) && HandlesResolve(d) && x < |d.audioElements| && y < |d.audioElements|
    requires CheckElement(d, d.audioElements[x]).Ok? && CheckElement(d, d.audioElements[y]).Ok?
    requires j < |LowerElements(d)[x].audioSubstreamIds| && k < |LowerElements(d)[y].audioSubstreamIds|
    ensures SameCarried(LowerElements(d)[x], j, LowerElements(d)[y], k)
  {
    hide CheckElement, References, GainCount, HandlesResolve;
    ElementPlaces(d, x);
    ElementPlaces(d, y);
    var a, b := d.audioElements[x], d.audioElements[y];
    assert a.substreams[j] in a.substreams && b.substreams[k] in b.substreams;
    if a.substreams[j] == b.substreams[k] {
      assert SharedAlike(d, a, j);
    }
  }

  lemma GainsObey(d: Declared, profile: Profile)
    requires Frozen(d) && Allocatable(d) && HandlesResolve(d) && |d.codecConfigs| == 1
    ensures CodecRules(LowerCodecs(d.codecConfigs)[0])
    ensures forall r | r in FromDescriptors(DescriptorsOf(d, profile)) ::
              && r.context.MixGainContext?
              && GainRules(r.definition, Rate(d.codecConfigs[0]), d.codecConfigs[0].numSamplesPerFrame)
  {
    hide ValidateDeclarations, Frozen, HandlesResolve, CheckCodec, CheckElement, CheckMix, CheckTogether,
         CheckParameter, AllParameters, FromDescriptors, LowerElements, LowerMixes, CodecRules, Rate, GainRules,
         CheckTiming;
    FrozenValidates(d);
    Validated(d);
    var c := d.codecConfigs[0];
    CodecChecked(c);
    RateIs(c);
    SameRules(c, 0);
    RegistryIsTheHandles(d, profile);
    var handles := AllParameters(d.mixPresentations);
    forall r | r in WireDefinitions(d, handles)
      ensures r.context.MixGainContext? && GainRules(r.definition, Rate(c), c.numSamplesPerFrame)
    {
      var i :| 0 <= i < |handles| && WireDefinitions(d, handles)[i] == r;
      assert KnownParameter(d, handles[i]);
      var p := d.parameters[handles[i].index];
      assert CheckTiming(c, Rate(c), p.gain.definition).Ok?;
      GainChecked(c, p);
      RenamedRules(p.gain.definition, r.definition.parameterId, Rate(c), c.numSamplesPerFrame);
    }
  }

  lemma SameRules(c: CodecConfig, id: u32)
    requires CodecRules(c)
    ensures CodecRules(c.(codecConfigId := id))
  {
    hide LeastRoll;
  }

  lemma RenamedRules(v: ParamDefinition, id: u32, rate: nat, samples: nat)
    requires GainRules(v, rate, samples)
    ensures GainRules(v.(parameterId := id), rate, samples)
  {
  }

  /**
    What every build carries: one codec configuration under the rules of its codec, elements of the topologies
    that can be encoded, substreams that carry the same wherever they are shared, and gains that tick once a
    sample and last one frame.
  */
  lemma BuildObeysTheRules(d: Declared)
    requires Build(d).Ok?
    ensures var set_ := Build(d).value.0.descriptors;
            && |set_.codecConfigs| == 1 && CodecRules(set_.codecConfigs[0])
            && (forall x | 0 <= x < |set_.audioElements| :: ElementRules(set_.audioElements[x]))
            && SharedAsOne(set_.audioElements)
            && forall r | r in FromDescriptors(set_) ::
                 && r.context.MixGainContext?
                 && GainRules(r.definition, Rate(set_.codecConfigs[0]), set_.codecConfigs[0].numSamplesPerFrame)
  {
    hide Build, Frozen, HandlesResolve, CodecRules, ElementRules, LowerElements, LowerMixes, FromDescriptors;
    hide CheckElement, SequenceProfile, Manifest, GainRules, Rate, SameCarried, ResolveReferences;
    var r, profile := BuildFreezes(d);
    FrozenResolves(r);
    SomethingDeclared(r, profile);
    GainsObey(r, profile);
    SameRate(r.codecConfigs[0], 0);
    forall x | 0 <= x < |r.audioElements| ensures ElementRules(LowerElements(r)[x]) {
      ElementObeys(r, profile, x);
    }
    forall x, y, j, k | 0 <= x < |r.audioElements| && 0 <= y < |r.audioElements|
                        && 0 <= j < |LowerElements(r)[x].audioSubstreamIds|
                        && 0 <= k < |LowerElements(r)[y].audioSubstreamIds|
      ensures SameCarried(LowerElements(r)[x], j, LowerElements(r)[y], k)
    {
      ElementObeys(r, profile, x);
      ElementObeys(r, profile, y);
      SharedCarried(r, x, j, y, k);
    }
  }

  lemma SameRate(c: CodecConfig, id: u32)
    ensures Rate(c.(codecConfigId := id)) == Rate(c)
  {
  }

  // ------------------------------------------------------------------ presentations

  /** No label twice. */
  predicate NoRepeat(labels: seq<Option<u32>>) {
    forall i, j | 0 <= i < j < |labels| :: labels[i].Some? ==> labels[i] != labels[j]
  }

  lemma {:induction false} LabelsChecked(labels: seq<Option<u32>>, seen: seq<u32>)
    ensures CheckImplicitIds(labels, seen).Ok? <==>
            NoRepeat(labels) && forall i | 0 <= i < |labels| :: labels[i].Some? ==> labels[i].value !in seen
    decreases |labels|
  {
    if labels != [] {
      var rest := labels[1..];
      var next := if labels[0].Some? then seen + [labels[0].value] else seen;
      LabelsChecked(rest, next);
      assert forall i | 0 <= i < |rest| :: rest[i] == labels[i + 1];
      assert NoRepeat(labels) <==>
             NoRepeat(rest) && forall i | 0 <= i < |rest| :: labels[0].Some? ==> labels[0] != rest[i];
    }
  }

  /** Well-formed language tags, no two the same but for case. */
  ghost predicate LanguageRules(languages: seq<seq<u8>>) {
    && (forall i | 0 <= i < |languages| :: LanguageTags.LanguageTag(languages[i]))
    && forall i, j | 0 <= i < j < |languages| :: !LanguageTags.SameCaseless(languages[i], languages[j])
  }

  /** Elements under known rendering, for layouts with a code of their own, one of them stereo. */
  predicate SubMixRules(s: SubMix, count: nat) {
    && s.elements != []
    && (forall i | 0 <= i < |s.elements| ::
          && (s.elements[i].rendering.mode.StereoMode? || s.elements[i].rendering.mode.BinauralMode?)
          && s.elements[i].rendering.reserved == 0 && s.elements[i].mixGain.definition.reserved == 0
          && |s.elements[i].annotations| == count)
    && s.outputMixGain.definition.reserved == 0
    && (exists i | 0 <= i < |s.layouts| :: IsStereo(s.layouts[i].layout))
    && forall i | 0 <= i < |s.layouts| :: LayoutRule(s.layouts[i])
  }

  /** One sub-mix, of distinct elements, with annotations in each language. */
  ghost predicate MixRules(m: MixPresentation) {
    && LanguageRules(m.annotationsLanguage) && |m.presentationAnnotations| == |m.annotationsLanguage|
    && |m.subMixes| == 1 && SubMixRules(m.subMixes[0], |m.annotationsLanguage|)
    && var elements := m.subMixes[0].elements;
       forall i, j | 0 <= i < j < |elements| :: elements[i].audioElementId != elements[j].audioElementId
  }

  predicate IsStereo(l: MixLayout) {
    l.LayoutType() == 2 && l.SystemLayout? && l.system.Value() == 0
  }

  /** Anchors once each, an extension only under flags of its own, and no reserved layout. */
  predicate LayoutRule(l: LayoutWithLoudness) {
    && l.reserved == 0
    && (l.loudness.anchored.Some? ==>
          var anchors := l.loudness.anchored.value;
          forall i, j | 0 <= i < j < |anchors| :: anchors[i].anchor != anchors[j].anchor)
    && (l.loudness.extension.Some? ==>
          4 <= l.loudness.extension.value.infoTypeBits && l.loudness.extension.value.infoTypeBits % 4 == 0)
    && match l.layout
       case SystemLayout(system) => system.Value() <= 13 && system.Canonical()
       case BinauralLayout => true
       case ReservedMixLayout(_) => false
  }

  /** The checks of one layout, exactly. */
  lemma LayoutChecked(l: LayoutWithLoudness)
    ensures CheckLayout(l).Ok? && LayoutClean(l) <==> LayoutRule(l)
  {
  }

  /** The checks of one sub-mix, exactly. */
  lemma SubMixChecked(s: SubMix, count: nat)
    ensures SubMixClean(s, count) && (forall l | l in s.layouts :: CheckLayout(l).Ok?) <==> SubMixRules(s, count)
  {
    hide CheckLayout, LayoutClean, LayoutRule;
    forall i | 0 <= i < |s.layouts|
      ensures s.layouts[i] in s.layouts
      ensures CheckLayout(s.layouts[i]).Ok? && LayoutClean(s.layouts[i]) <==> LayoutRule(s.layouts[i])
    {
      LayoutChecked(s.layouts[i]);
    }
    if SubMixRules(s, count) {
      var i :| 0 <= i < |s.layouts| && IsStereo(s.layouts[i].layout);
      StereoIs(s.layouts[i]);
    }
    if HasStereoLayout(s) {
      var i :| 0 <= i < |s.layouts| && s.layouts[i].layout == SystemLayout(A0_2_0);
      assert IsStereo(s.layouts[i].layout);
    }
  }

  lemma StereoIs(l: LayoutWithLoudness)
    requires LayoutRule(l) && IsStereo(l.layout)
    ensures l.layout == SystemLayout(A0_2_0)
  {
  }

  /** The checks of the languages, exactly. */
  lemma LanguagesChecked(languages: seq<seq<u8>>)
    ensures LanguagesDistinct(languages) && LanguagesWellFormed(languages) <==> LanguageRules(languages)
  {
    hide LanguageTags.WellFormed, LanguageTags.LanguageTag, LanguageTags.SameCaseless;
    forall i | 0 <= i < |languages|
      ensures LanguageTags.WellFormed(languages[i]) <==> LanguageTags.LanguageTag(languages[i])
    {
      LanguageTags.GreedyIsTheGrammar(languages[i]);
    }
  }

  lemma SoleSubMix(s: SubMix)
    ensures Distinct(ReferencedIds([s])) <==>
            forall i, j | 0 <= i < j < |s.elements| :: s.elements[i].audioElementId != s.elements[j].audioElementId
  {
    var ids := ReferencedIds([s]);
    assert ReferencedIds([]) == [] && [s][1..] == [];
    assert |ids| == |s.elements| && forall i | 0 <= i < |ids| :: ids[i] == s.elements[i].audioElementId;
  }

  lemma PresentationObeys(m: MixPresentation)
    requires Readable(m)
    ensures MixRules(m)
  {
    hide LanguagesDistinct, LanguagesWellFormed, LanguageRules, SubMixClean, CheckLayout, SubMixRules, ReferencedIds,
         Distinct;
    LanguagesChecked(m.annotationsLanguage);
    SubMixChecked(m.subMixes[0], |m.annotationsLanguage|);
    SoleSubMix(m.subMixes[0]);
    assert m.subMixes == [m.subMixes[0]];
  }

  /** What every build presents, and that the labels of its substreams and parameters were distinct. */
  lemma BuildPresents(d: Declared)
    requires Build(d).Ok?
    ensures var mixes := Build(d).value.0.descriptors.mixPresentations;
            mixes != [] && forall i | 0 <= i < |mixes| :: MixRules(mixes[i])
    ensures NoRepeat(d.substreams) && NoRepeat(ImplicitIds(d.parameters))
  {
    hide Build, Frozen, Ready, SetClean, Readable, MixRules, NoRepeat, LowerElements, LowerMixes, ResolveReferences;
    var e := Build(d).value.0;
    assert Built(e);
    BuiltIsReady(e);
    forall i | 0 <= i < |e.descriptors.mixPresentations| ensures MixRules(e.descriptors.mixPresentations[i]) {
      ReadableAt(e, i);
      PresentationObeys(e.descriptors.mixPresentations[i]);
    }
    var r, _ := BuildFreezes(d);
    FrozenResolves(r);
    FrozenValidates(r);
    SomethingPresented(r);
    LabelsChecked(r.substreams, []);
    LabelsChecked(ImplicitIds(r.parameters), []);
  }

  lemma ReadableAt(e: Encoder, i: nat)
    requires Ready(e) && i < |e.descriptors.mixPresentations|
    ensures Readable(e.descriptors.mixPresentations[i])
  {
    hide Readable, FromDescriptors, CheckTopology, Typed;
  }

  lemma SomethingPresented(d: Declared)
    requires ValidateDeclarations(d).Ok?
    ensures d.mixPresentations != []
    ensures CheckImplicitIds(d.substreams, []).Ok? && CheckImplicitIds(ImplicitIds(d.parameters), []).Ok?
  {
    hide CheckImplicitIds, CheckCodec, CheckParameter, CheckTimings, CheckElement, CheckMix, CheckTogether, ImplicitIds;
    CheckedTogether(d);
  }
}
