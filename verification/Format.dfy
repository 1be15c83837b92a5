/**
  The bytes of IAMF v1.1.0, field by field and without a bit writer: what every payload, every OBU and every
  sequence that is written looks like.
*/
module Formats {
  import opened Core
  import opened Obus
  import opened ParamDefinitions
  import opened ParameterBlocks
  import opened SequenceHeaders
  import opened CodecConfigs
  import opened AudioElements
  import opened MixPresentations
  import opened AudioFrames
  import opened SequenceObus

  // ---------------------------------------------------------------------- numbers

  /** Seven bits a byte, the least significant first, with the high bit on all but the last. */
  function Leb(v: nat): (b: seq<u8>)
    ensures b != []
  {
    if v < 128 then [v] else [128 + v % 128] + Leb(v / 128)
  }

  /** The last `n` bytes of `v`, the most significant first. */
  function Big(v: nat, n: nat): (b: seq<u8>)
    ensures |b| == n
  {
    if n == 0 then [] else Big(v / 256, n - 1) + [v % 256]
  }

  /** Two's complement in two bytes. */
  function Twos(v: i16): seq<u8> {
    Big(if v < 0 then v + 0x1_0000 else v, 2)
  }

  function Bit(b: bool): (v: nat)
    ensures v <= 1
  {
    if b then 1 else 0
  }

  /** The items one after the other. */
  function Each<T>(f: T -> seq<u8>, xs: seq<T>): seq<u8> {
    if xs == [] then [] else f(xs[0]) + Each(f, xs[1..])
  }

  function Counted<T>(f: T -> seq<u8>, xs: seq<T>): seq<u8> {
    Leb(|xs|) + Each(f, xs)
  }

  function Sized(bytes: seq<u8>): seq<u8> {
    Leb(|bytes|) + bytes
  }

  /** A byte of fields; no field is ever wider than its place. */
  function Packed(v: nat): seq<u8> {
    [v % 256]
  }

  // ------------------------------------------------------------------ descriptors

  function HeaderFormat(v: IaSequenceHeader): seq<u8> {
    Big(v.iaCode, 4) + [v.primaryProfile, v.additionalProfile]
  }

  function LpcmFormat(v: LpcmConfig): seq<u8> {
    [v.flags.Value(), v.sampleSize] + Big(v.sampleRate, 4)
  }

  function OpusFormat(v: OpusConfig): seq<u8> {
    [v.version, v.outputChannelCount] + Big(v.preSkip, 2) + Big(v.inputSampleRate, 4) + Twos(v.outputGain)
    + [v.mappingFamily]
  }

  /** The metadata block header and STREAMINFO: 20 bits of rate, 3 of channels, 5 of depth, 36 of samples. */
  function FlacFormat(v: FlacConfig): seq<u8> {
    Packed(128 * Bit(v.lastMetadataBlock) + v.metadataBlockType) + Big(v.metadataDataBlockLength, 3)
    + Big(v.minimumBlockSize, 2) + Big(v.maximumBlockSize, 2) + Big(v.minimumFrameSize, 3) + Big(v.maximumFrameSize, 3)
    + Big(((v.sampleRate * 8 + v.numberOfChannels) * 32 + v.bitsPerSample) * 0x10_0000_0000 + v.totalSamples, 8) + v.md5
  }

  /** The MPEG-4 descriptor of 17 bytes with an AudioSpecificConfig of two: 5, 4 and 4 bits and three flags. */
  function AacFormat(v: AacConfig): seq<u8> {
    [4, 17, v.objectTypeIndication] + Packed(4 * v.streamType + 2 * Bit(v.upstream) + 1) + Big(v.bufferSizeDb, 3)
    + Big(v.maxBitrate, 4) + Big(v.avgBitrate, 4) + [5, 2]
    + Big(((v.audioObjectType * 16 + v.samplingFrequencyIndex) * 16 + v.channelConfiguration) * 8
          + 4 * Bit(v.frameLengthFlag) + 2 * Bit(v.dependsOnCoreCoder) + Bit(v.extensionFlag), 2)
  }

  function DecoderFormat(v: DecoderConfig): seq<u8> {
    match v
    case Lpcm(lpcm) => LpcmFormat(lpcm)
    case Flac(flac) => FlacFormat(flac)
    case Opus(opus) => OpusFormat(opus)
    case AacLc(aac) => AacFormat(aac)
    case RawConfig(_, bytes) => bytes
  }

  function CodecFormat(v: CodecConfig): seq<u8> {
    Leb(v.codecConfigId) + v.codecId + Leb(v.numSamplesPerFrame) + Twos(v.audioRollDistance)
    + DecoderFormat(v.decoderConfig)
  }

  function DurationsFormat(v: DurationFields): seq<u8> {
    Leb(v.duration) + Leb(v.constantSubblockDuration)
    + if v.constantSubblockDuration == 0 then Counted((d: u32) => Leb(d), v.subblockDurations) else []
  }

  function DefinitionFormat(v: ParamDefinition): seq<u8> {
    Leb(v.parameterId) + Leb(v.parameterRate) + Packed(128 * Bit(v.durationFields.None?) + v.reserved)
    + if v.durationFields.Some? then DurationsFormat(v.durationFields.value) else []
  }

  function OutputGainFormat(v: OutputGain): seq<u8> {
    Packed(4 * v.flags + v.reserved) + Twos(v.gain)
  }

  /** The byte of a layer's code, flags and reserved bits. */
  function LayerFlags(v: ChannelLayer): seq<u8> {
    Packed(16 * v.layout.Value() + 8 * Bit(v.outputGain.Some?) + 4 * Bit(v.reconGainIsPresent) + v.reserved)
  }

  function LayerFormat(v: ChannelLayer): seq<u8> {
    LayerFlags(v) + [v.substreamCount, v.coupledSubstreamCount]
    + (if v.outputGain.Some? then OutputGainFormat(v.outputGain.value) else [])
    + if v.layout.Expanded? then [v.layout.expanded.Value()] else []
  }

  function AmbisonicsFormat(v: AmbisonicsConfig): seq<u8> {
    match v
    case MonoMode(channels, substreams, mapping) => [0, channels, substreams] + mapping
    case ProjectionMode(channels, substreams, coupled, matrix) =>
      [1, channels, substreams, coupled] + Each((entry: i16) => Twos(entry), matrix)
    case ReservedMode(mode) => Leb(mode)
  }

  function ElementParamFormat(v: ElementParam): seq<u8> {
    match v
    case DemixingParam(definition, mode, reserved, weight, weightReserved) =>
      [1] + DefinitionFormat(definition) + Packed(32 * mode + reserved) + Packed(16 * weight + weightReserved)
    case ReconGainParam(definition) => [2] + DefinitionFormat(definition)
    case ExtensionParam(t, bytes) => Leb(t) + Sized(bytes)
  }

  function ElementTypeFormat(v: ElementType): seq<u8> {
    match v
    case ChannelBased(reserved, layers) =>
      Packed(32 * |layers| + reserved) + Each((layer: ChannelLayer) => LayerFormat(layer), layers)
    case SceneBased(config) => AmbisonicsFormat(config)
    case ReservedType(_, raw) => raw
  }

  function TypeCode(v: ElementType): nat {
    match v
    case ChannelBased(_, _) => 0
    case SceneBased(_) => 1
    case ReservedType(value, _) => value
  }

  function ElementFormat(v: AudioElement): seq<u8> {
    Leb(v.audioElementId) + Packed(32 * TypeCode(v.elementType) + v.reserved) + Leb(v.codecConfigId)
    + Counted((id: u32) => Leb(id), v.audioSubstreamIds)
    + Counted((p: ElementParam) => ElementParamFormat(p), v.params) + ElementTypeFormat(v.elementType)
  }

  function TextFormat(text: seq<u8>): seq<u8> {
    text + [0]
  }

  function GainFormat(v: MixGainDefinition): seq<u8> {
    DefinitionFormat(v.definition) + Twos(v.defaultMixGain)
  }

  function RenderingFormat(v: RenderingConfig): seq<u8> {
    Packed(64 * v.mode.Value() + v.reserved) + Sized(v.extension)
  }

  function MemberFormat(v: SubMixElement): seq<u8> {
    Leb(v.audioElementId) + Each((text: seq<u8>) => TextFormat(text), v.annotations) + RenderingFormat(v.rendering)
    + GainFormat(v.mixGain)
  }

  function AnchorFormat(v: AnchorElement): seq<u8> {
    [v.anchor] + Twos(v.loudness)
  }

  /** Bit 0 tells of the true peak, bit 1 of the anchors, and the others of the extension. */
  function InfoFormat(v: Loudness): seq<u8> {
    Packed(Bit(v.truePeak.Some?) + 2 * Bit(v.anchored.Some?)
           + if v.extension.Some? then v.extension.value.infoTypeBits / 4 * 4 else 0)
  }

  /** The loudness fields up to the true peak. */
  function LoudnessHeadFormat(v: Loudness): seq<u8> {
    InfoFormat(v) + Twos(v.integrated) + Twos(v.digitalPeak)
    + if v.truePeak.Some? then Twos(v.truePeak.value) else []
  }

  function LoudnessFormat(v: Loudness): seq<u8> {
    LoudnessHeadFormat(v)
    + (if v.anchored.Some?
       then Packed(|v.anchored.value|) + Each((a: AnchorElement) => AnchorFormat(a), v.anchored.value) else [])
    + if v.extension.Some? then Sized(v.extension.value.bytes) else []
  }

  function SelectorFormat(v: LayoutWithLoudness): seq<u8> {
    match v.layout
    case SystemLayout(system) => Packed(128 + 4 * system.Value() + v.reserved)
    case BinauralLayout => Packed(192 + v.reserved)
    case ReservedMixLayout(raw) => Packed(64 * raw + v.reserved)
  }

  function LayoutFormat(v: LayoutWithLoudness): seq<u8> {
    SelectorFormat(v) + LoudnessFormat(v.loudness)
  }

  function SubMixFormat(v: SubMix): seq<u8> {
    Counted((m: SubMixElement) => MemberFormat(m), v.elements) + GainFormat(v.outputMixGain)
    + Counted((l: LayoutWithLoudness) => LayoutFormat(l), v.layouts)
  }

  function MixFormat(v: MixPresentation): seq<u8> {
    Leb(v.mixPresentationId) + Counted((text: seq<u8>) => TextFormat(text), v.annotationsLanguage)
    + Each((text: seq<u8>) => TextFormat(text), v.presentationAnnotations)
    + Counted((m: SubMix) => SubMixFormat(m), v.subMixes)
  }

  // ----------------------------------------------------------------- temporal payloads

  function MixGainFormat(v: MixGainData): seq<u8> {
    match v
    case StepGain(start) => [0] + Twos(start)
    case LinearGain(start, end) => [1] + Twos(start) + Twos(end)
    case BezierGain(start, end, control, relativeTime) =>
      [2] + Twos(start) + Twos(end) + Twos(control) + [relativeTime]
  }

  /** The gains whose bits are set in the flag, from gain `k` on, which is its lowest bit. */
  function GainsFormat(flag: nat, gains: Gains, k: nat): seq<u8>
    requires k <= 12
    decreases 12 - k
  {
    if k == 12 then [] else (if flag % 2 == 1 then [gains[k]] else []) + GainsFormat(flag / 2, gains, k + 1)
  }

  function ReconLayerFormat(v: Option<ReconGainElement>): seq<u8> {
    if v.None? then [] else Leb(v.value.flag) + GainsFormat(v.value.flag, v.value.gains, 0)
  }

  function DataFormat(v: ParameterData): seq<u8> {
    match v
    case MixGain(mix) => MixGainFormat(mix)
    case Demixing(mode, reserved) => Packed(32 * mode + reserved)
    case ReconGain(layers) => Each((l: Option<ReconGainElement>) => ReconLayerFormat(l), layers)
    case Raw(bytes) => Sized(bytes)
  }

  function SubblockFormat(v: Subblock): seq<u8> {
    (if v.duration.Some? then Leb(v.duration.value) else []) + DataFormat(v.data)
  }

  /** The id, the durations of a block that carries its own, and the count unless it is implied. */
  function BlockHeadFormat(v: ParameterBlock): seq<u8> {
    Leb(v.parameterId)
    + match v.durationFields
      case None => []
      case Some(fields) =>
        Leb(fields.duration) + Leb(fields.constantSubblockDuration)
        + if fields.constantSubblockDuration == 0 then Leb(|v.subblocks|) else []
  }

  function BlockFormat(v: ParameterBlock): seq<u8> {
    BlockHeadFormat(v) + Each((s: Subblock) => SubblockFormat(s), v.subblocks)
  }

  /** Substreams 0 to 17 are in the OBU type; any other is written out. */
  function FrameFormat(h: ObuHeader, v: AudioFrame): seq<u8> {
    (if h.obuType.Value() == 5 then Leb(v.substreamId) else []) + v.payload
  }

  // --------------------------------------------------------------------- OBUs

  /** End trim, start trim, extension: what the flags of the first byte announce. */
  function AfterFormat(h: ObuHeader): seq<u8> {
    (if h.TrimmingFlag() then Leb(h.typeSpecific.trim.value.atEnd) + Leb(h.typeSpecific.trim.value.atStart) else [])
    + if h.extension.Some? then Sized(h.extension.value) else []
  }

  /** Five bits of type and three flags. */
  function FlagsFormat(h: ObuHeader): seq<u8> {
    Packed(8 * h.obuType.Value() + 4 * Bit(h.redundantCopy) + 2 * Bit(h.TrimmingFlag()) + Bit(h.extension.Some?))
  }

  /** An OBU: its size counts everything after the size. */
  function ObuFormat(h: ObuHeader, payload: seq<u8>): seq<u8> {
    FlagsFormat(h) + Leb(|AfterFormat(h)| + |payload|) + AfterFormat(h) + payload
  }

  /** The payload of an OBU with everything that trails it. */
  function PayloadFormat(o: SequenceObu): seq<u8> {
    match o
    case IaHeader(o) => HeaderFormat(o.payload) + o.payload.trailing + o.trailing
    case Codec(o) => CodecFormat(o.payload) + o.payload.trailing + o.trailing
    case Element(o) => ElementFormat(o.payload) + o.payload.trailing + o.trailing
    case Mix(o) => MixFormat(o.payload) + o.payload.trailing + o.trailing
    case Block(o) => BlockFormat(o.payload) + o.trailing
    case Ungoverned(_, bytes) => bytes
    case Delimiter(o) => o.trailing
    case Frame(o) => FrameFormat(o.header, o.payload) + o.trailing
    case Unknown(_, bytes) => bytes
  }

  function SeqObuFormat(o: SequenceObu): seq<u8> {
    ObuFormat(o.Header(), PayloadFormat(o))
  }

  function SequenceFormat(s: seq<SequenceObu>): seq<u8> {
    Each((o: SequenceObu) => SeqObuFormat(o), s)
  }
}
