/**
  What the encoder builder collects, and the checks and lowering that turn it into wire descriptors: the
  values of `build`, without the object it runs on.
*/
module Declarations {
  import opened Core
  import opened ParamDefinitions
  import opened ParameterBlocks
  import opened SequenceHeaders
  import opened CodecConfigs
  import opened AudioElements
  import opened MixPresentations
  import opened Sequences
  import opened Parts
  import opened Streams
  import opened Profiles
  import opened Findings

  datatype CodecConfigHandle = CodecConfigHandle(generation: u64, index: nat)
  datatype AudioElementHandle = AudioElementHandle(generation: u64, index: nat)
  datatype MixPresentationHandle = MixPresentationHandle(generation: u64, index: nat)
  datatype SubstreamHandle = SubstreamHandle(generation: u64, index: nat)
  datatype ParameterHandle = ParameterHandle(generation: u64, index: nat)

  datatype ElementDeclaration = ElementDeclaration(
    codecConfig: CodecConfigHandle, substreams: seq<SubstreamHandle>, element: AudioElement)

  datatype MixDeclaration = MixDeclaration(
    audioElements: seq<AudioElementHandle>, parameters: seq<ParameterHandle>, presentation: MixPresentation)

  datatype ParameterDeclaration = ParameterDeclaration(implicitId: Option<u32>, gain: MixGainDefinition)

  /** The builder's fields. */
  datatype Declared = Declared(
    generation: u64, codecConfigs: seq<CodecConfig>, audioElements: seq<ElementDeclaration>,
    mixPresentations: seq<MixDeclaration>, substreams: seq<Option<u32>>, parameters: seq<ParameterDeclaration>)

  const INVALID: Error := InvalidDescriptorReference

  /** `for x in xs { f(x)?; }` */
  function CheckAll<T>(xs: seq<T>, f: T -> Result<()>): (r: Result<()>)
    ensures r.Ok? <==> forall i | 0 <= i < |xs| :: f(xs[i]).Ok?
  {
    if xs == [] then Ok(())
    else
      var _ :- f(xs[0]);
      var rest := CheckAll(xs[1..], f);
      assert rest.Ok? ==> forall i | 1 <= i < |xs| :: f(xs[1..][i - 1]) == f(xs[i]);
      rest
  }

  function Require(condition: bool, e: Error): Result<()> {
    if condition then Ok(()) else Err(e)
  }

  // ------------------------------------------------------------------------ gains

  /** The gains of a presentation in wire order: each sub-mix's element gains, then its output gain. */
  function GainCount(subMixes: seq<SubMix>): nat {
    if subMixes == [] then 0 else |subMixes[0].elements| + 1 + GainCount(subMixes[1..])
  }

  function ElementGains(elements: seq<SubMixElement>): (gains: seq<MixGainDefinition>)
    ensures |gains| == |elements|
  {
    seq(|elements|, i requires 0 <= i < |elements| => elements[i].mixGain)
  }

  function MixGains(subMixes: seq<SubMix>): (gains: seq<MixGainDefinition>)
    ensures |gains| == GainCount(subMixes)
  {
    if subMixes == [] then []
    else ElementGains(subMixes[0].elements) + [subMixes[0].outputMixGain] + MixGains(subMixes[1..])
  }

  function WithGains(elements: seq<SubMixElement>, gains: seq<MixGainDefinition>): (r: seq<SubMixElement>)
    requires |gains| == |elements|
    ensures |r| == |elements|
  {
    seq(|elements|, i requires 0 <= i < |elements| => elements[i].(mixGain := gains[i]))
  }

  function SetGains(subMixes: seq<SubMix>, gains: seq<MixGainDefinition>): (r: seq<SubMix>)
    requires |gains| == GainCount(subMixes)
    ensures |r| == |subMixes|
  {
    if subMixes == [] then []
    else
      var n := |subMixes[0].elements|;
      [subMixes[0].(elements := WithGains(subMixes[0].elements, gains[..n]), outputMixGain := gains[n])]
      + SetGains(subMixes[1..], gains[n + 1..])
  }

  predicate KnownParameter(d: Declared, h: ParameterHandle) {
    h.generation == d.generation && h.index < |d.parameters|
  }

  /** The parameter handles of one presentation, each known and none used before. */
  function TakeHandles(d: Declared, handles: seq<ParameterHandle>, used: seq<ParameterHandle>)
      : (r: Result<seq<ParameterHandle>>)
    ensures r.Ok? ==> r.value == used + handles && forall h | h in handles :: KnownParameter(d, h)
    decreases |handles|
  {
    if handles == [] then Ok(used)
    else if !KnownParameter(d, handles[0]) then Err(UnknownParameterHandle)
    else if handles[0] in used then Err(DuplicateDeclaration)
    else TakeHandles(d, handles[1..], used + [handles[0]])
  }

  function GainsOf(d: Declared, handles: seq<ParameterHandle>): (gains: seq<MixGainDefinition>)
    requires forall h | h in handles :: KnownParameter(d, h)
    ensures |gains| == |handles|
  {
    seq(|handles|, i requires 0 <= i < |handles| =>
      assert KnownParameter(d, handles[i]);
      d.parameters[handles[i].index].gain)
  }

  function ResolveMix(d: Declared, m: MixDeclaration): MixDeclaration
    requires |m.parameters| == GainCount(m.presentation.subMixes)
    requires forall h | h in m.parameters :: KnownParameter(d, h)
  {
    m.(presentation := m.presentation.(subMixes := SetGains(m.presentation.subMixes, GainsOf(d, m.parameters))))
  }

  function ResolveMixes(d: Declared, mixes: seq<MixDeclaration>, used: seq<ParameterHandle>)
      : (r: Result<(seq<MixDeclaration>, seq<ParameterHandle>)>)
    ensures r.Ok? ==> |r.value.0| == |mixes|
    decreases |mixes|
  {
    if mixes == [] then Ok(([], used))
    else if |mixes[0].parameters| != GainCount(mixes[0].presentation.subMixes) then Err(INVALID)
    else
      var used :- TakeHandles(d, mixes[0].parameters, used);
      var (rest, used) :- ResolveMixes(d, mixes[1..], used);
      Ok(([ResolveMix(d, mixes[0])] + rest, used))
  }

  /** `resolve_parameter_references`: template gains give way to the declared ones, each used exactly once. */
  function ResolveReferences(d: Declared): Result<Declared> {
    var (mixes, used) :- ResolveMixes(d, d.mixPresentations, []);
    if |used| != |d.parameters| then Err(INVALID) else Ok(d.(mixPresentations := mixes))
  }

  // ------------------------------------------------------------------------ checks

  /** `validate_implicit_ids`. */
  function CheckImplicitIds(ids: seq<Option<u32>>, seen: seq<u32>): Result<()>
    decreases |ids|
  {
    if ids == [] then Ok(())
    else if ids[0].None? then CheckImplicitIds(ids[1..], seen)
    else if ids[0].value in seen then Err(DuplicateDeclaration)
    else CheckImplicitIds(ids[1..], seen + [ids[0].value])
  }

  function ImplicitIds(parameters: seq<ParameterDeclaration>): seq<Option<u32>> {
    seq(|parameters|, i requires 0 <= i < |parameters| => parameters[i].implicitId)
  }

  function Sum(durations: seq<u32>): nat {
    if durations == [] then 0 else Sum(durations[..|durations| - 1]) + durations[|durations| - 1]
  }

  /** `validate_parameter_definition`; a sum too large for a `u32` is not the duration either. */
  function CheckDefinition(v: ParamDefinition): Result<()> {
    if v.parameterRate == 0 then Err(INVALID)
    else if v.durationFields.None? then Ok(())
    else
      var fields := v.durationFields.value;
      Require(
        && fields.duration != 0
        && if fields.constantSubblockDuration == 0 then
             && fields.subblockDurations != [] && 0 !in fields.subblockDurations
             && Sum(fields.subblockDurations) == fields.duration
           else fields.constantSubblockDuration <= fields.duration && fields.subblockDurations == [],
        SubblockDurationMismatch)
  }

  function CheckParameter(p: ParameterDeclaration): Result<()> {
    var _ :- CheckDefinition(p.gain.definition);
    Require(DefinitionClean(p.gain.definition), INVALID)
  }

  function CheckCodec(c: CodecConfig): Result<()> {
    match c.decoderConfig
    case RawConfig(_, _) => Err(INVALID)
    case Lpcm(_) => Require(c.codecId == LPCM && CodecClean(c), INVALID)
    case Flac(_) => Require(c.codecId == FLAC && CodecClean(c), INVALID)
    case Opus(_) => Require(c.codecId == OPUS && CodecClean(c), INVALID)
    case AacLc(_) => Require(c.codecId == AAC && CodecClean(c), INVALID)
  }

  function OutputSampleRate(c: CodecConfig): Option<u32> {
    match c.decoderConfig
    case Lpcm(lpcm) => Some(lpcm.sampleRate)
    case Flac(flac) => Some(flac.sampleRate)
    case Opus(_) => Some(OPUS_SAMPLE_RATE)
    case AacLc(aac) =>
      if aac.samplingFrequencyIndex < |AAC_SAMPLE_RATES| then Some(AAC_SAMPLE_RATES[aac.samplingFrequencyIndex])
      else None
    case RawConfig(_, _) => None
  }

  /** A gain ticks at the output sample rate, and a definition's own duration is one frame. */
  function CheckTiming(c: CodecConfig, rate: u32, v: ParamDefinition): Result<()> {
    if v.parameterRate != rate then Err(ParameterRateMismatch)
    else
      Require(v.durationFields.Some? ==> v.durationFields.value.duration == c.numSamplesPerFrame,
              ParameterBlockDurationMismatch)
  }

  function CheckTimings(d: Declared): Result<()> {
    if d.codecConfigs == [] then Ok(())
    else
      var c := d.codecConfigs[0];
      var rate := OutputSampleRate(c);
      if rate.None? then Err(INVALID)
      else CheckAll(d.parameters, (p: ParameterDeclaration) => CheckTiming(c, rate.value, p.gain.definition))
  }

  /** Two channels for the coupled substreams of the first layer, one otherwise. */
  function SubstreamChannels(e: AudioElement, position: nat): u8 {
    if e.elementType.ChannelBased? && e.elementType.layers != [] &&
       position < e.elementType.layers[0].coupledSubstreamCount then 2
    else 1
  }

  function CheckLayer(l: ChannelLayer): Result<()> {
    if l.reconGainIsPresent then Err(UnsupportedParameterData)
    else if l.layout.SingleLayerCounts().None? then Err(UnsupportedLayout)
    else if l.coupledSubstreamCount != l.layout.SingleLayerCounts().value.1 then Err(CoupledSubstreamCountMismatch)
    else Require(l.substreamCount == l.layout.SingleLayerCounts().value.0, ChannelCountMismatch)
  }

  predicate MappingFits(channels: u8, substreams: u8, mapping: seq<u8>) {
    && (exists root: nat | 1 <= root <= 15 :: root * root == channels)
    && 0 < substreams <= channels && |mapping| == channels
    && (forall i | 0 <= i < |mapping| :: mapping[i] == 255 || mapping[i] < substreams)
    && forall stream: u8 | stream < substreams :: stream in mapping
  }

  /** `validate_element_topology`. */
  function CheckTopology(e: AudioElement): Result<()> {
    match e.elementType
    case ChannelBased(_, layers) =>
      if exists i | 0 <= i < |layers| :: layers[i].layout.ChannelCount().None? then Err(UnsupportedLayout)
      else if |layers| != 1 then Err(INVALID)
      else CheckLayer(layers[0])
    case SceneBased(MonoMode(channels, substreams, mapping)) =>
      Require(MappingFits(channels, substreams, mapping) && substreams == |e.audioSubstreamIds|, INVALID)
    case _ => Err(INVALID)
  }

  /** A substream shared by two elements has the same codec and the same channels in both. */
  predicate SharedAlike(d: Declared, e: ElementDeclaration, position: nat)
    requires position < |e.substreams|
  {
    forall k | 0 <= k < |d.audioElements| ::
      forall other: nat | other < |d.audioElements[k].substreams| ::
        d.audioElements[k].substreams[other] == e.substreams[position] ==>
          && d.audioElements[k].codecConfig == e.codecConfig
          && SubstreamChannels(d.audioElements[k].element, other) == SubstreamChannels(e.element, position)
  }

  /** The substream handles from `position` on. */
  function CheckSubstreams(d: Declared, e: ElementDeclaration, position: nat): Result<()>
    requires position <= |e.substreams|
    decreases |e.substreams| - position
  {
    if position == |e.substreams| then Ok(())
    else
      var h := e.substreams[position];
      if h.generation != d.generation || h.index >= |d.substreams| then Err(UnknownSubstreamHandle)
      else if h in e.substreams[..position] then Err(DuplicateDeclaration)
      else if !SharedAlike(d, e, position) then Err(INVALID)
      else CheckSubstreams(d, e, position + 1)
  }

  function CheckElement(d: Declared, e: ElementDeclaration): Result<()> {
    if e.codecConfig.generation != d.generation || e.codecConfig.index >= |d.codecConfigs|
    then Err(UnknownCodecConfigHandle)
    else
      var _ :- CheckTopology(e.element);
      if !ElementClean(e.element) || |e.substreams| != |e.element.audioSubstreamIds| then Err(INVALID)
      else CheckSubstreams(d, e, 0)
  }

  function References(subMixes: seq<SubMix>): nat {
    if subMixes == [] then 0 else |subMixes[0].elements| + References(subMixes[1..])
  }

  function Renamed(elements: seq<SubMixElement>, ids: seq<u32>): (r: seq<SubMixElement>)
    requires |ids| == |elements|
    ensures |r| == |elements|
  {
    seq(|elements|, i requires 0 <= i < |elements| => elements[i].(audioElementId := ids[i]))
  }

  /** The element references replaced, in order. */
  function SetReferences(subMixes: seq<SubMix>, ids: seq<u32>): (r: seq<SubMix>)
    requires |ids| == References(subMixes)
    ensures |r| == |subMixes|
  {
    if subMixes == [] then []
    else
      var n := |subMixes[0].elements|;
      [subMixes[0].(elements := Renamed(subMixes[0].elements, ids[..n]))] + SetReferences(subMixes[1..], ids[n..])
  }

  function ElementIds(handles: seq<AudioElementHandle>): (ids: seq<u32>)
    requires forall h | h in handles :: h.index < U32_LIMIT
    ensures |ids| == |handles|
  {
    seq(|handles|, i requires 0 <= i < |handles| => handles[i].index)
  }

  predicate AnySubMixElement(subMixes: seq<SubMix>, p: SubMixElement -> bool) {
    exists i | 0 <= i < |subMixes| :: exists k | 0 <= k < |subMixes[i].elements| :: p(subMixes[i].elements[k])
  }

  predicate AnyLayout(subMixes: seq<SubMix>, p: LayoutWithLoudness -> bool) {
    exists i | 0 <= i < |subMixes| :: exists k | 0 <= k < |subMixes[i].layouts| :: p(subMixes[i].layouts[k])
  }

  predicate RepeatsAnchor(l: LayoutWithLoudness) {
    l.loudness.anchored.Some? && !AnchorsDistinct(l.loudness.anchored.value)
  }

  /** The layouts the writer accepts and the encoder does not. */
  function CheckLayout(l: LayoutWithLoudness): Result<()> {
    if l.layout.ReservedMixLayout? || (l.layout.SystemLayout? && l.layout.system.ReservedSystem?)
    then Err(UnsupportedLayout)
    else
      Require(l.loudness.extension.Some? ==>
                var bits := l.loudness.extension.value.infoTypeBits;
                bits / 4 != 0 && bits % 4 == 0,
              INVALID)
  }

  function CheckReferences(d: Declared, m: MixDeclaration): Result<()> {
    if References(m.presentation.subMixes) != |m.audioElements| then Err(INVALID)
    else
      CheckAll(m.audioElements, (h: AudioElementHandle) =>
        Require(h.generation == d.generation && h.index < |d.audioElements|, UnknownAudioElementHandle))
  }

  function CheckMix(d: Declared, m: MixDeclaration): Result<()> {
    var v := m.presentation;
    var _ :- CheckReferences(d, m);
    if |v.subMixes| != 1 then Err(SubMixCountNotOne)
    else if AnySubMixElement(v.subMixes, (e: SubMixElement) => e.rendering.mode.ReservedHeadphones?)
    then Err(Error.ReservedHeadphonesRenderingMode)
    else if !Distinct(m.audioElements) then Err(DuplicateMixPresentationAudioElement)
    else if !LanguagesDistinct(v.annotationsLanguage) then Err(DuplicateAnnotationsLanguage)
    else if !LanguagesWellFormed(v.annotationsLanguage) then Err(AnnotationsLanguageNotWellFormed)
    else if AnyLayout(v.subMixes, RepeatsAnchor) then Err(DuplicateAnchorElement)
    else if exists h | h in m.audioElements :: h.index >= U32_LIMIT then Err(WireIdAllocationExhausted)
    else if References(v.subMixes) != |m.audioElements| ||
            !MixClean(v.(subMixes := SetReferences(v.subMixes, ElementIds(m.audioElements)))) then Err(INVALID)
    else CheckAll(v.subMixes, (s: SubMix) => CheckAll(s.layouts, CheckLayout))
  }

  predicate SubstreamUsed(d: Declared, index: nat) {
    exists k | 0 <= k < |d.audioElements| ::
      exists i | 0 <= i < |d.audioElements[k].substreams| :: d.audioElements[k].substreams[i].index == index
  }

  function Elements(declarations: seq<ElementDeclaration>): (r: seq<AudioElement>)
    ensures |r| == |declarations|
  {
    seq(|declarations|, i requires 0 <= i < |declarations| => declarations[i].element)
  }

  function Presentations(declarations: seq<MixDeclaration>): (r: seq<MixPresentation>)
    ensures |r| == |declarations|
  {
    seq(|declarations|, i requires 0 <= i < |declarations| => declarations[i].presentation)
  }

  /** The declarations under their template ids, for the rehearsal. */
  function Template(d: Declared): DescriptorSet {
    DescriptorSet(IaSequenceHeader(IA_CODE, 0, 0, []), d.codecConfigs, Elements(d.audioElements),
                  Presentations(d.mixPresentations))
  }

  /** What is checked on the whole set, after each declaration has passed on its own. */
  function CheckTogether(d: Declared): Result<()> {
    if exists index: nat | index < |d.substreams| :: !SubstreamUsed(d, index) then Err(INVALID)
    else
      var _ :- CheckAll(FromDescriptors(Template(d)), (r: Registered) => CheckDefinition(r.definition));
      if exists k | 0 <= k < |d.audioElements| :: d.audioElements[k].element.params != []
      then Err(UnsupportedParameterData)
      else
        var _ :- WAll([], [], FlatDescriptors(Template(d)));
        Require(d.mixPresentations != [], NoMixPresentation)
  }

  /** `validate_declarations`, on declarations whose gains are resolved. */
  function ValidateDeclarations(d: Declared): Result<()> {
    var _ :- CheckImplicitIds(d.substreams, []);
    var _ :- CheckImplicitIds(ImplicitIds(d.parameters), []);
    var _ :- CheckAll(d.parameters, CheckParameter);
    var _ :- CheckAll(d.codecConfigs, CheckCodec);
    if |d.codecConfigs| > 1 then Err(MultipleCodecConfigs)
    else
      var _ :- CheckTimings(d);
      var _ :- CheckAll(d.audioElements, (e: ElementDeclaration) => CheckElement(d, e));
      var _ :- CheckAll(d.mixPresentations, (m: MixDeclaration) => CheckMix(d, m));
      CheckTogether(d)
  }

  // ------------------------------------------------------------------- lowering

  /** Every declared list fits the `u32` wire ids. */
  predicate Allocatable(d: Declared) {
    && |d.codecConfigs| <= U32_LIMIT && |d.audioElements| <= U32_LIMIT && |d.mixPresentations| <= U32_LIMIT
    && |d.substreams| <= U32_LIMIT && |d.parameters| <= U32_LIMIT
  }

  /** What the checks leave true of the handles, and lowering relies on. */
  predicate HandlesResolve(d: Declared) {
    && (forall k | 0 <= k < |d.audioElements| ::
          && d.audioElements[k].codecConfig.index < |d.codecConfigs|
          && (forall h | h in d.audioElements[k].substreams :: h.index < |d.substreams|))
    && (forall k | 0 <= k < |d.mixPresentations| ::
          var m := d.mixPresentations[k];
          && |m.audioElements| == References(m.presentation.subMixes)
          && |m.parameters| == GainCount(m.presentation.subMixes)
          && (forall h | h in m.audioElements :: h.index < |d.audioElements|)
          && (forall h | h in m.parameters :: h.index < |d.parameters|))
  }

  function LowerCodecs(codecs: seq<CodecConfig>): (r: seq<CodecConfig>)
    requires |codecs| <= U32_LIMIT
    ensures |r| == |codecs|
  {
    seq(|codecs|, i requires 0 <= i < |codecs| => codecs[i].(codecConfigId := i))
  }

  function SubstreamIdsOf(handles: seq<SubstreamHandle>): (ids: seq<u32>)
    requires forall h | h in handles :: h.index < U32_LIMIT
    ensures |ids| == |handles|
  {
    seq(|handles|, i requires 0 <= i < |handles| => handles[i].index)
  }

  function ParameterIdsOf(handles: seq<ParameterHandle>): (ids: seq<u32>)
    requires forall h | h in handles :: h.index < U32_LIMIT
    ensures |ids| == |handles|
  {
    seq(|handles|, i requires 0 <= i < |handles| => handles[i].index)
  }

  function LowerElement(e: ElementDeclaration, id: u32): AudioElement
    requires e.codecConfig.index < U32_LIMIT && forall h | h in e.substreams :: h.index < U32_LIMIT
  {
    e.element.(audioElementId := id, codecConfigId := e.codecConfig.index,
               audioSubstreamIds := SubstreamIdsOf(e.substreams))
  }

  function Named(gain: MixGainDefinition, id: u32): MixGainDefinition {
    gain.(definition := gain.definition.(parameterId := id))
  }

  function NameGains(gains: seq<MixGainDefinition>, ids: seq<u32>): (r: seq<MixGainDefinition>)
    requires |ids| == |gains|
    ensures |r| == |gains|
  {
    seq(|gains|, i requires 0 <= i < |gains| => Named(gains[i], ids[i]))
  }

  /** The parameter ids replaced, in wire order. */
  function SetParameterIds(subMixes: seq<SubMix>, ids: seq<u32>): seq<SubMix>
    requires |ids| == GainCount(subMixes)
  {
    SetGains(subMixes, NameGains(MixGains(subMixes), ids))
  }

  lemma {:induction false} SetReferencesKeepsGains(subMixes: seq<SubMix>, ids: seq<u32>)
    requires |ids| == References(subMixes)
    ensures MixGains(SetReferences(subMixes, ids)) == MixGains(subMixes)
    ensures GainCount(SetReferences(subMixes, ids)) == GainCount(subMixes)
  {
    if subMixes != [] {
      var n := |subMixes[0].elements|;
      SetReferencesKeepsGains(subMixes[1..], ids[n..]);
      var r := SetReferences(subMixes, ids);
      assert r[1..] == SetReferences(subMixes[1..], ids[n..]);
      assert ElementGains(Renamed(subMixes[0].elements, ids[..n])) == ElementGains(subMixes[0].elements);
    }
  }

  function LowerMix(m: MixDeclaration, id: u32): MixPresentation
    requires |m.audioElements| == References(m.presentation.subMixes)
    requires |m.parameters| == GainCount(m.presentation.subMixes)
    requires forall h | h in m.audioElements :: h.index < U32_LIMIT
    requires forall h | h in m.parameters :: h.index < U32_LIMIT
  {
    var referenced := SetReferences(m.presentation.subMixes, ElementIds(m.audioElements));
    SetReferencesKeepsGains(m.presentation.subMixes, ElementIds(m.audioElements));
    m.presentation.(mixPresentationId := id, subMixes := SetParameterIds(referenced, ParameterIdsOf(m.parameters)))
  }

  function LowerElements(d: Declared): (r: seq<AudioElement>)
    requires Allocatable(d) && HandlesResolve(d)
    ensures |r| == |d.audioElements|
  {
    seq(|d.audioElements|, i requires 0 <= i < |d.audioElements| => LowerElement(d.audioElements[i], i))
  }

  function LowerMixes(d: Declared): (r: seq<MixPresentation>)
    requires Allocatable(d) && HandlesResolve(d)
    ensures |r| == |d.mixPresentations|
  {
    seq(|d.mixPresentations|, i requires 0 <= i < |d.mixPresentations| => LowerMix(d.mixPresentations[i], i))
  }

  datatype Encoder = Encoder(descriptors: DescriptorSet, generation: u64)

  datatype IdManifest = IdManifest(
    codecConfigs: seq<(CodecConfigHandle, u32)>, audioElements: seq<(AudioElementHandle, u32)>,
    mixPresentations: seq<(MixPresentationHandle, u32)>, substreamIds: seq<(SubstreamHandle, u32)>,
    parameterIds: seq<(ParameterHandle, u32)>,
    elementSubstreams: seq<(AudioElementHandle, seq<SubstreamHandle>)>,
    presentationParameters: seq<(MixPresentationHandle, seq<ParameterHandle>)>, sequenceProfile: Profile)

  /** `lookup_id`. */
  function LookUp<H(==), V>(entries: seq<(H, V)>, handle: H): Option<V> {
    if entries == [] then None else if entries[0].0 == handle then Some(entries[0].1) else LookUp(entries[1..], handle)
  }

  /** `allocate_ids`. */
  function Allocate<H>(length: nat, make: nat -> H): (r: seq<(H, u32)>)
    requires length <= U32_LIMIT
    ensures |r| == length
  {
    seq(length, i requires 0 <= i < length => (make(i), i))
  }

  function Manifest(d: Declared, profile: Profile): IdManifest
    requires Allocatable(d)
  {
    var g := d.generation;
    IdManifest(
      Allocate(|d.codecConfigs|, (i: nat) => CodecConfigHandle(g, i)),
      Allocate(|d.audioElements|, (i: nat) => AudioElementHandle(g, i)),
      Allocate(|d.mixPresentations|, (i: nat) => MixPresentationHandle(g, i)),
      Allocate(|d.substreams|, (i: nat) => SubstreamHandle(g, i)),
      Allocate(|d.parameters|, (i: nat) => ParameterHandle(g, i)),
      seq(|d.audioElements|, i requires 0 <= i < |d.audioElements| =>
        (AudioElementHandle(g, i), d.audioElements[i].substreams)),
      seq(|d.mixPresentations|, i requires 0 <= i < |d.mixPresentations| =>
        (MixPresentationHandle(g, i), d.mixPresentations[i].parameters)),
      profile)
  }
}
