/**
  When `validate()` has nothing to report: one predicate per descriptor, and one for a whole set with its
  ids, references and profiles. The reports themselves, which are text, are not modelled.
*/
module Findings {
  import opened Core
  import opened Layouts
  import opened ParamDefinitions
  import opened ParameterBlocks
  import opened SequenceHeaders
  import opened CodecConfigs
  import opened AudioElements
  import opened MixPresentations
  import opened Parts
  import opened Streams
  import opened LanguageTags
  import opened Profiles

  const MAX_SAMPLES_PER_FRAME := 96_000
  const VALID_SAMPLE_RATES: seq<u32> := [16_000, 32_000, 44_100, 48_000, 96_000]
  const OPUS_SAMPLE_RATE := 48_000
  const FLAC_MAX_SAMPLE_RATE := 655_350
  const AAC_SAMPLES_PER_FRAME := 1024
  const AAC_SAMPLE_RATES: seq<u32> := [
    96_000, 88_200, 64_000, 48_000, 44_100, 32_000, 24_000, 22_050, 16_000, 12_000, 11_025, 8_000, 7_350]
  const MAX_NUM_PARAMETERS := 256

  predicate HeaderClean(v: IaSequenceHeader) {
    && v.iaCode == IA_CODE && v.primaryProfile < PROFILE_COUNT && v.additionalProfile >= v.primaryProfile
  }

  predicate DefinitionClean(v: ParamDefinition) {
    v.reserved == 0
  }

  predicate LpcmClean(v: LpcmConfig) {
    && !v.flags.ReservedFormat? && (v.sampleSize == 16 || v.sampleSize == 24 || v.sampleSize == 32)
    && v.sampleRate in VALID_SAMPLE_RATES
  }

  predicate FlacClean(v: FlacConfig, frameSize: u32) {
    && v.lastMetadataBlock && v.metadataBlockType == 0 && v.metadataDataBlockLength == 34
    && v.minimumBlockSize == frameSize && v.maximumBlockSize == frameSize && frameSize >= 16
    && v.minimumFrameSize == 0 && v.maximumFrameSize == 0
    && 1 <= v.sampleRate <= FLAC_MAX_SAMPLE_RATE && v.numberOfChannels == 1 && 3 <= v.bitsPerSample <= 31
    && v.totalSamples <= 0xf_ffff_ffff && v.md5 == seq(16, _ => 0)
  }

  predicate OpusClean(v: OpusConfig) {
    && 1 <= v.version <= 15 && v.outputChannelCount == 2 && v.preSkip != 0
    && v.inputSampleRate == OPUS_SAMPLE_RATE && v.outputGain == 0 && v.mappingFamily == 0
  }

  predicate AacClean(v: AacConfig, frameSize: u32) {
    && v.bufferSizeDb <= 0xff_ffff && v.objectTypeIndication == 0x40 && v.streamType == 5 && !v.upstream
    && v.audioObjectType == 2 && v.samplingFrequencyIndex < |AAC_SAMPLE_RATES| && v.channelConfiguration == 2
    && !v.frameLengthFlag && !v.dependsOnCoreCoder && !v.extensionFlag && frameSize == AAC_SAMPLES_PER_FRAME
  }

  /** `-ceil(3840 / n)` for Opus, fixed for the other codecs. */
  function RequiredRoll(v: DecoderConfig, frameSize: u32): int
    requires frameSize > 0
  {
    match v
    case Opus(_) => -(3840 / frameSize + if 3840 % frameSize == 0 then 0 else 1)
    case AacLc(_) => -1
    case _ => 0
  }

  predicate CodecClean(v: CodecConfig) {
    && (v.codecId == LPCM || v.codecId == OPUS || v.codecId == FLAC || v.codecId == AAC)
    && 1 <= v.numSamplesPerFrame <= MAX_SAMPLES_PER_FRAME
    && v.audioRollDistance == RequiredRoll(v.decoderConfig, v.numSamplesPerFrame)
    && match v.decoderConfig
       case Lpcm(lpcm) => LpcmClean(lpcm)
       case Flac(flac) => FlacClean(flac, v.numSamplesPerFrame)
       case Opus(opus) => OpusClean(opus)
       case AacLc(aac) => AacClean(aac, v.numSamplesPerFrame)
       case RawConfig(_, _) => true
  }

  predicate LayerClean(v: ChannelLayer) {
    v.reserved == 0 && (v.outputGain.Some? ==> v.outputGain.value.reserved == 0)
  }

  function DeclaredSubstreamCount(layers: seq<ChannelLayer>): nat {
    if layers == [] then 0 else layers[0].substreamCount + DeclaredSubstreamCount(layers[1..])
  }

  predicate ElementParamClean(v: ElementParam) {
    && v.DefinitionType() != 0
    && match v
       case DemixingParam(definition, _, reserved, _, wReserved) =>
         DefinitionClean(definition) && reserved == 0 && wReserved == 0
       case ReconGainParam(definition) => DefinitionClean(definition)
       case ExtensionParam(_, _) => true
  }

  predicate ElementClean(v: AudioElement) {
    && v.reserved == 0 && v.audioSubstreamIds != []
    && (v.elementType.ChannelBased? ==>
          && v.elementType.reserved == 0 && v.elementType.layers != []
          && DeclaredSubstreamCount(v.elementType.layers) == |v.audioSubstreamIds|
          && forall i | 0 <= i < |v.elementType.layers| :: LayerClean(v.elementType.layers[i]))
    && (forall i | 0 <= i < |v.params| :: ElementParamClean(v.params[i]))
    && |v.params| <= MAX_NUM_PARAMETERS
  }

  predicate LanguagesDistinct(languages: seq<seq<u8>>) {
    forall i, j | 0 <= i < j < |languages| :: !SameCaseless(languages[i], languages[j])
  }

  predicate LanguagesWellFormed(languages: seq<seq<u8>>) {
    forall i | 0 <= i < |languages| :: LanguageTags.WellFormed(languages[i])
  }

  predicate AnchorsDistinct(anchors: seq<AnchorElement>) {
    forall i, j | 0 <= i < j < |anchors| :: anchors[i].anchor != anchors[j].anchor
  }

  predicate LayoutClean(v: LayoutWithLoudness) {
    v.reserved == 0 && (v.loudness.anchored.Some? ==> AnchorsDistinct(v.loudness.anchored.value))
  }

  predicate SubMixElementClean(v: SubMixElement, countLabel: nat) {
    && v.rendering.reserved == 0 && !v.rendering.mode.ReservedHeadphones? && DefinitionClean(v.mixGain.definition)
    && |v.annotations| == countLabel
  }

  predicate HasStereoLayout(v: SubMix) {
    exists i | 0 <= i < |v.layouts| :: v.layouts[i].layout == SystemLayout(A0_2_0)
  }

  predicate SubMixClean(v: SubMix, countLabel: nat) {
    && HasStereoLayout(v) && v.elements != []
    && (forall i | 0 <= i < |v.elements| :: SubMixElementClean(v.elements[i], countLabel))
    && DefinitionClean(v.outputMixGain.definition)
    && forall i | 0 <= i < |v.layouts| :: LayoutClean(v.layouts[i])
  }

  function ReferencedIds(subMixes: seq<SubMix>): seq<u32> {
    if subMixes == [] then []
    else
      seq(|subMixes[0].elements|, i requires 0 <= i < |subMixes[0].elements| => subMixes[0].elements[i].audioElementId)
      + ReferencedIds(subMixes[1..])
  }

  predicate MixClean(v: MixPresentation) {
    && |v.presentationAnnotations| == |v.annotationsLanguage|
    && LanguagesDistinct(v.annotationsLanguage) && LanguagesWellFormed(v.annotationsLanguage)
    && |v.subMixes| == 1 && Distinct(ReferencedIds(v.subMixes))
    && forall i | 0 <= i < |v.subMixes| :: SubMixClean(v.subMixes[i], |v.annotationsLanguage|)
  }

  // ---------------------------------------------------------------- the whole set

  predicate DistinctBy<T(!new)>(xs: seq<T>, key: T -> u32) {
    forall i, j | 0 <= i < j < |xs| :: key(xs[i]) != key(xs[j])
  }

  predicate HasCodec(codecs: seq<CodecConfig>, id: u32) {
    exists j | 0 <= j < |codecs| :: codecs[j].codecConfigId == id
  }

  predicate ReferencesResolve(set_: DescriptorSet) {
    && (forall i | 0 <= i < |set_.audioElements| ::
          HasCodec(set_.codecConfigs, set_.audioElements[i].codecConfigId))
    && (forall i | 0 <= i < |set_.mixPresentations| ::
          forall id | id in ReferencedIds(set_.mixPresentations[i].subMixes) :: HasId(set_.audioElements, id))
  }

  /** A sub-mix of one scalable element has a layout for each of its layers. */
  predicate LayoutsCoverLayers(v: SubMix, elements: seq<AudioElement>) {
    |v.elements| == 1 ==>
      var only := FindElement(elements, v.elements[0].audioElementId);
      only.Some? && only.value.elementType.ChannelBased? ==>
        |only.value.elementType.layers| <= 1 || |v.layouts| >= |only.value.elementType.layers|
  }

  predicate ProfilesClean(set_: DescriptorSet) {
    && ComplianceFindings(set_.sequenceHeader.primaryProfile, set_.sequenceHeader.additionalProfile,
                          set_.audioElements, set_.mixPresentations) == []
    && SequenceLimitFindings(set_.sequenceHeader.primaryProfile, set_.audioElements) == []
  }

  /** `DescriptorSet::validate` returns no finding. */
  predicate SetClean(set_: DescriptorSet) {
    && HeaderClean(set_.sequenceHeader)
    && (forall i | 0 <= i < |set_.codecConfigs| :: CodecClean(set_.codecConfigs[i]))
    && (forall i | 0 <= i < |set_.audioElements| :: ElementClean(set_.audioElements[i]))
    && (forall i | 0 <= i < |set_.mixPresentations| :: MixClean(set_.mixPresentations[i]))
    && DistinctBy(set_.codecConfigs, (c: CodecConfig) => c.codecConfigId)
    && DistinctBy(set_.audioElements, (e: AudioElement) => e.audioElementId)
    && DistinctBy(set_.mixPresentations, (m: MixPresentation) => m.mixPresentationId)
    && DistinctBy(FromDescriptors(set_), (r: Registered) => r.definition.parameterId)
    && ReferencesResolve(set_)
    && (forall i | 0 <= i < |set_.mixPresentations| ::
          forall k | 0 <= k < |set_.mixPresentations[i].subMixes| ::
            LayoutsCoverLayers(set_.mixPresentations[i].subMixes[k], set_.audioElements))
    && ProfilesClean(set_)
  }
}
