/** The payload writers as they drive a bit writer, each against the function that specifies it. */
module PayloadWriters {
  import opened Core
  import opened Bits
  import opened Leb128
  import opened Lists
  import opened Obus
  import opened ParamDefinitions
  import opened ParameterBlocks
  import opened SequenceHeaders
  import opened CodecConfigs
  import opened AudioElements
  import opened MixPresentations
  import opened AudioFrames
  import opened BitWriters

  // ------------------------------------------------------------ shared pieces

  method WriteSized(w: BitWriter, bytes: seq<u8>) returns (r: Result<()>)
    requires w.Valid()
    modifies w
    ensures w.Valid() && Did(WSized(old(w.Bits()), bytes), r, w.Bits())
  {
    hide WLeb, WBytes, w.Bits, w.Valid;
    if |bytes| >= U32_LIMIT {
      return Err(ObuTooLarge);
    }
    w.WriteUleb128(|bytes|);
    w.WriteBytes(bytes);
    r := Ok(());
  }

  /** A derived count, refused when it does not fit. */
  method WriteCount(w: BitWriter, count: nat) returns (r: Result<()>)
    requires w.Valid()
    modifies w
    ensures w.Valid()
    ensures count < U32_LIMIT ==> r == Ok(()) && w.Bits() == WLeb(old(w.Bits()), count)
    ensures count >= U32_LIMIT ==> r == Err(ObuTooLarge)
  {
    if count >= U32_LIMIT {
      return Err(ObuTooLarge);
    }
    w.WriteUleb128(count);
    r := Ok(());
  }

  method WriteIds(w: BitWriter, ids: seq<u32>) returns (r: Result<()>)
    requires w.Valid()
    modifies w
    ensures w.Valid() && Did(WCounted(old(w.Bits()), ids, WLebItem), r, w.Bits())
  {
    hide WLeb, w.Bits, w.Valid;
    var _ :- WriteCount(w, |ids|);
    ghost var start := w.Bits();
    for i := 0 to |ids|
      invariant w.Valid() && WMany(w.Bits(), ids, i, WLebItem) == WMany(start, ids, 0, WLebItem)
    {
      w.WriteUleb128(ids[i]);
    }
    r := Ok(());
  }

  method WriteDurationFields(w: BitWriter, v: DurationFields) returns (r: Result<()>)
    requires w.Valid()
    modifies w
    ensures w.Valid() && Did(WDurationFields(old(w.Bits()), v), r, w.Bits())
  {
    hide WLeb, WCounted, w.Bits, w.Valid;
    w.WriteUleb128(v.duration);
    w.WriteUleb128(v.constantSubblockDuration);
    if v.constantSubblockDuration == 0 {
      var _ :- WriteIds(w, v.subblockDurations);
    }
    r := Ok(());
  }

  method WriteParamDefinition(w: BitWriter, v: ParamDefinition) returns (r: Result<()>)
    requires w.Valid()
    modifies w
    ensures w.Valid() && Did(WParamDefinition(old(w.Bits()), v), r, w.Bits())
  {
    hide WLeb, WU, WBool, WDurationFields, w.Bits, w.Valid;
    if v.durationFields.Some? && v.durationFields.value.constantSubblockDuration != 0
       && v.durationFields.value.subblockDurations != [] {
      return Err(GatedFieldMismatch);
    }
    w.WriteUleb128(v.parameterId);
    w.WriteUleb128(v.parameterRate);
    w.WriteBool(v.Mode());
    var _ :- w.WriteUnsigned(v.reserved, 7);
    if v.durationFields.Some? {
      var _ :- WriteDurationFields(w, v.durationFields.value);
    }
    r := Ok(());
  }

  // ------------------------------------------------------------ parameter blocks

  method WriteGains(w: BitWriter, flag: u32, gains: Gains)
    requires w.Valid()
    modifies w
    ensures w.Valid() && w.Bits() == WGains(old(w.Bits()), flag, gains, 0)
  {
    hide BitsOf, w.Bits, w.Valid, Pow2;
    for k := 0 to 12
      invariant w.Valid() && WGains(w.Bits(), flag, gains, k) == WGains(old(w.Bits()), flag, gains, 0)
    {
      if Selected(flag, k) {
        PowersOfTwo();
        var _ := w.WriteUnsigned(gains[k], 8);
      }
    }
  }

  method WriteLayers(w: BitWriter, layers: seq<Option<ReconGainElement>>, present: seq<bool>) returns (r: Result<()>)
    requires w.Valid()
    modifies w
    ensures w.Valid() && Did(WLayers(old(w.Bits()), layers, present, 0), r, w.Bits())
  {
    hide WLeb, WGains, w.Bits, w.Valid;
    var n := if |layers| <= |present| then |layers| else |present|;
    for i := 0 to n
      invariant w.Valid() && WLayers(w.Bits(), layers, present, i) == WLayers(old(w.Bits()), layers, present, 0)
    {
      if present[i] {
        if layers[i].None? {
          return Err(UnsupportedParameterData);
        }
        w.WriteUleb128(layers[i].value.flag);
        WriteGains(w, layers[i].value.flag, layers[i].value.gains);
      }
    }
    r := Ok(());
  }

  method WriteMixGain(w: BitWriter, data: MixGainData) returns (r: Result<()>)
    requires w.Valid()
    modifies w
    ensures w.Valid() && Did(WMixGain(old(w.Bits()), data), r, w.Bits())
  {
    hide WLeb, WI16, WU, w.Bits, w.Valid;
    match data {
      case StepGain(start) =>
        w.WriteUleb128(0);
        w.WriteI16(start);
      case LinearGain(start, end) =>
        w.WriteUleb128(1);
        w.WriteI16(start);
        w.WriteI16(end);
      case BezierGain(start, end, control, relativeTime) =>
        w.WriteUleb128(2);
        w.WriteI16(start);
        w.WriteI16(end);
        w.WriteI16(control);
        var _ :- w.WriteUnsigned(relativeTime, 8);
    }
    r := Ok(());
  }

  /** `write_parameter_data`. */
  method WriteData(w: BitWriter, context: Context, data: ParameterData) returns (r: Result<()>)
    requires w.Valid()
    modifies w
    ensures w.Valid() && Did(WData(old(w.Bits()), context, data), r, w.Bits())
  {
    hide WMixGain, WU, WLayers, WSized, w.Bits, w.Valid;
    match data
    case MixGain(mix) => r := WriteMixGain(w, mix);
    case Demixing(dmixpMode, reserved) =>
      var _ :- w.WriteUnsigned(dmixpMode, 3);
      r := w.WriteUnsigned(reserved, 5);
    case ReconGain(layers) =>
      if !context.ReconGainContext? {
        return Err(UnsupportedParameterData);
      }
      r := WriteLayers(w, layers, context.present);
    case Raw(bytes) => r := WriteSized(w, bytes);
  }

  /** `write_parameter_block`: validated before anything is written. */
  method WriteParameterBlock(w: BitWriter, def: ParamDefinition, context: Context, block: ParameterBlock)
      returns (r: Result<()>)
    requires w.Valid()
    modifies w
    ensures w.Valid() && Did(WParameterBlock(old(w.Bits()), def, context, block), r, w.Bits())
  {
    hide WLeb, WData, ValidateParameterBlock, w.Bits, w.Valid;
    var _ :- ValidateParameterBlock(def, context, block);
    ValidBlockFits(def, context, block);
    w.WriteUleb128(block.parameterId);
    if block.durationFields.Some? {
      w.WriteUleb128(block.durationFields.value.duration);
      w.WriteUleb128(block.durationFields.value.constantSubblockDuration);
      if Timed(block) {
        w.WriteUleb128(|block.subblocks|);
      }
    }
    ghost var wr := SubblockWriter(context);
    ghost var start := w.Bits();
    assert start == WBlockHead(old(w.Bits()), block);
    for i := 0 to |block.subblocks|
      invariant w.Valid() && WMany(w.Bits(), block.subblocks, i, wr) == WMany(start, block.subblocks, 0, wr)
    {
      var s := block.subblocks[i];
      if s.duration.Some? {
        w.WriteUleb128(s.duration.value);
      }
      var _ :- WriteData(w, context, s.data);
    }
    r := Ok(());
  }

  lemma ValidBlockFits(def: ParamDefinition, context: Context, block: ParameterBlock)
    requires ValidateParameterBlock(def, context, block).Ok?
    ensures |block.subblocks| < U32_LIMIT
  {
  }

  // ------------------------------------------------------------ header, frames

  method WriteHeaderBody(w: BitWriter, v: IaSequenceHeader) returns (r: Result<()>)
    requires w.Valid()
    modifies w
    ensures w.Valid() && Did(WHeaderBody(old(w.Bits()), v), r, w.Bits())
  {
    hide WU, w.Bits, w.Valid;
    if v.additionalProfile < v.primaryProfile {
      return Err(AdditionalProfileBelowPrimary);
    }
    var _ :- w.WriteUnsigned(v.iaCode, 32);
    var _ :- w.WriteUnsigned(v.primaryProfile, 8);
    r := w.WriteUnsigned(v.additionalProfile, 8);
  }

  method WriteAudioFrame(w: BitWriter, h: ObuHeader, frame: AudioFrame) returns (r: Result<()>)
    requires w.Valid()
    modifies w
    ensures w.Valid() && Did(WAudioFrame(old(w.Bits()), h, frame), r, w.Bits())
  {
    hide WLeb, WBytes, w.Bits, w.Valid;
    var implicitId := SubstreamIdFor(h.obuType);
    if implicitId.Some? {
      if implicitId.value != frame.substreamId {
        return Err(SubstreamIdMismatch);
      }
    } else {
      if h.obuType.Value() != 5 {
        return Err(NotAnAudioFrame);
      }
      w.WriteUleb128(frame.substreamId);
    }
    w.WriteBytes(frame.payload);
    r := Ok(());
  }

  // ------------------------------------------------------------ codec config

  method WriteLpcm(w: BitWriter, v: LpcmConfig) returns (r: Result<()>)
    requires w.Valid()
    modifies w
    ensures w.Valid() && Did(WLpcm(old(w.Bits()), v), r, w.Bits())
  {
    hide WU, w.Bits, w.Valid;
    var _ :- w.WriteUnsigned(v.flags.Value(), 8);
    var _ :- w.WriteUnsigned(v.sampleSize, 8);
    r := w.WriteUnsigned(v.sampleRate, 32);
  }

  method WriteOpus(w: BitWriter, v: OpusConfig) returns (r: Result<()>)
    requires w.Valid()
    modifies w
    ensures w.Valid() && Did(WOpus(old(w.Bits()), v), r, w.Bits())
  {
    hide WU, WI16, w.Bits, w.Valid;
    var _ :- w.WriteUnsigned(v.version, 8);
    var _ :- w.WriteUnsigned(v.outputChannelCount, 8);
    var _ :- w.WriteUnsigned(v.preSkip, 16);
    var _ :- w.WriteUnsigned(v.inputSampleRate, 32);
    w.WriteI16(v.outputGain);
    r := w.WriteUnsigned(v.mappingFamily, 8);
  }

  method WriteFlacSizes(w: BitWriter, v: FlacConfig) returns (r: Result<()>)
    requires w.Valid()
    modifies w
    ensures w.Valid() && Did(WFlacSizes(old(w.Bits()), v), r, w.Bits())
  {
    hide WU, WBool, w.Bits, w.Valid;
    w.WriteBool(v.lastMetadataBlock);
    var _ :- w.WriteUnsigned(v.metadataBlockType, 7);
    var _ :- w.WriteUnsigned(v.metadataDataBlockLength, 24);
    var _ :- w.WriteUnsigned(v.minimumBlockSize, 16);
    var _ :- w.WriteUnsigned(v.maximumBlockSize, 16);
    var _ :- w.WriteUnsigned(v.minimumFrameSize, 24);
    r := w.WriteUnsigned(v.maximumFrameSize, 24);
  }

  method WriteFlac(w: BitWriter, v: FlacConfig) returns (r: Result<()>)
    requires w.Valid()
    modifies w
    ensures w.Valid() && Did(WFlac(old(w.Bits()), v), r, w.Bits())
  {
    hide WU, WFlacSizes, WBytes, w.Bits, w.Valid;
    var _ :- WriteFlacSizes(w, v);
    var _ :- w.WriteUnsigned(v.sampleRate, 20);
    var _ :- w.WriteUnsigned(v.numberOfChannels, 3);
    var _ :- w.WriteUnsigned(v.bitsPerSample, 5);
    var _ :- w.WriteUnsigned(v.totalSamples, 36);
    w.WriteBytes(v.md5);
    r := Ok(());
  }

  method WriteConstant(w: BitWriter, x: u8)
    requires w.Valid()
    modifies w
    ensures w.Valid() && w.Bits() == old(w.Bits()) + BitsOf(x, 8)
  {
    hide BitsOf, w.Bits, w.Valid;
    PowersOfTwo();
    var _ := w.WriteUnsigned(x, 8);
  }

  method WriteAacHead(w: BitWriter, v: AacConfig) returns (r: Result<()>)
    requires w.Valid()
    modifies w
    ensures w.Valid() && Did(WAacHead(old(w.Bits()), v), r, w.Bits())
  {
    hide WU, WBool, BitsOf, w.Bits, w.Valid;
    WriteConstant(w, 4);
    WriteConstant(w, 17);
    var _ :- w.WriteUnsigned(v.objectTypeIndication, 8);
    var _ :- w.WriteUnsigned(v.streamType, 6);
    w.WriteBool(v.upstream);
    w.WriteBool(true);
    var _ :- w.WriteUnsigned(v.bufferSizeDb, 24);
    var _ :- w.WriteUnsigned(v.maxBitrate, 32);
    r := w.WriteUnsigned(v.avgBitrate, 32);
  }

  method WriteAac(w: BitWriter, v: AacConfig) returns (r: Result<()>)
    requires w.Valid()
    modifies w
    ensures w.Valid() && Did(WAac(old(w.Bits()), v), r, w.Bits())
  {
    hide WU, WBool, BitsOf, WAacHead, w.Bits, w.Valid;
    var _ :- WriteAacHead(w, v);
    WriteConstant(w, 5);
    WriteConstant(w, 2);
    var _ :- w.WriteUnsigned(v.audioObjectType, 5);
    var _ :- w.WriteUnsigned(v.samplingFrequencyIndex, 4);
    var _ :- w.WriteUnsigned(v.channelConfiguration, 4);
    w.WriteBool(v.frameLengthFlag);
    w.WriteBool(v.dependsOnCoreCoder);
    w.WriteBool(v.extensionFlag);
    r := Ok(());
  }

  method WriteDecoderConfig(w: BitWriter, v: DecoderConfig) returns (r: Result<()>)
    requires w.Valid()
    modifies w
    ensures w.Valid() && Did(WDecoderConfig(old(w.Bits()), v), r, w.Bits())
  {
    hide WLpcm, WFlac, WOpus, WAac, WBytes, w.Bits, w.Valid;
    match v
    case Lpcm(lpcm) => r := WriteLpcm(w, lpcm);
    case Flac(flac) => r := WriteFlac(w, flac);
    case Opus(opus) => r := WriteOpus(w, opus);
    case AacLc(aac) => r := WriteAac(w, aac);
    case RawConfig(_, bytes) =>
      w.WriteBytes(bytes);
      r := Ok(());
  }

  method WriteCodecBody(w: BitWriter, v: CodecConfig) returns (r: Result<()>)
    requires w.Valid()
    modifies w
    ensures w.Valid() && Did(WCodecBody(old(w.Bits()), v), r, w.Bits())
  {
    hide WLeb, WBytes, WI16, WDecoderConfig, w.Bits, w.Valid;
    w.WriteUleb128(v.codecConfigId);
    w.WriteBytes(v.codecId);
    w.WriteUleb128(v.numSamplesPerFrame);
    w.WriteI16(v.audioRollDistance);
    r := WriteDecoderConfig(w, v.decoderConfig);
  }

  // ------------------------------------------------------------ audio element

  method WriteChannelLayer(w: BitWriter, v: ChannelLayer) returns (r: Result<()>)
    requires w.Valid()
    modifies w
    ensures w.Valid() && Did(WChannelLayer(old(w.Bits()), v), r, w.Bits())
  {
    hide WU, WBool, WI16, w.Bits, w.Valid;
    var _ :- w.WriteUnsigned(v.layout.Value(), 4);
    w.WriteBool(v.outputGain.Some?);
    w.WriteBool(v.reconGainIsPresent);
    var _ :- w.WriteUnsigned(v.reserved, 2);
    var _ :- w.WriteUnsigned(v.substreamCount, 8);
    var _ :- w.WriteUnsigned(v.coupledSubstreamCount, 8);
    if v.outputGain.Some? {
      var _ :- w.WriteUnsigned(v.outputGain.value.flags, 6);
      var _ :- w.WriteUnsigned(v.outputGain.value.reserved, 2);
      w.WriteI16(v.outputGain.value.gain);
    }
    if v.layout.Expanded? {
      var _ :- w.WriteUnsigned(v.layout.expanded.Value(), 8);
    }
    r := Ok(());
  }

  lemma TooWide(w: BitSeq, n: nat)
    ensures n >= U64_LIMIT ==> WU(w, n, 3) == Err(ValueExceedsWidth)
  {
    PowersOfTwo();
  }

  method WriteScalable(w: BitWriter, reserved: u8, layers: seq<ChannelLayer>) returns (r: Result<()>)
    requires w.Valid()
    modifies w
    ensures w.Valid() && Did(WScalable(old(w.Bits()), reserved, layers), r, w.Bits())
  {
    TooWide(w.Bits(), |layers|);
    if |layers| >= U64_LIMIT {
      return Err(ValueExceedsWidth);
    }
    hide WU, WChannelLayer, w.Bits, w.Valid, Pow2;
    var _ :- w.WriteUnsigned(|layers|, 3);
    var _ :- w.WriteUnsigned(reserved, 5);
    ghost var start := w.Bits();
    for i := 0 to |layers|
      invariant w.Valid() && WMany(w.Bits(), layers, i, WChannelLayer) == WMany(start, layers, 0, WChannelLayer)
    {
      var _ :- WriteChannelLayer(w, layers[i]);
    }
    r := Ok(());
  }

  method WriteAmbisonics(w: BitWriter, v: AmbisonicsConfig) returns (r: Result<()>)
    requires w.Valid()
    modifies w
    ensures w.Valid() && Did(WAmbisonics(old(w.Bits()), v), r, w.Bits())
  {
    hide WLeb, WU, WBytes, WI16, MatrixLen, w.Bits, w.Valid;
    match v
    case ReservedMode(mode) =>
      if mode <= 1 {
        return Err(ReservedAliasesDefinedValue);
      }
      w.WriteUleb128(mode);
      r := Ok(());
    case MonoMode(channels, substreams, mapping) =>
      if |mapping| != channels {
        return Err(GatedFieldMismatch);
      }
      w.WriteUleb128(0);
      var _ :- w.WriteUnsigned(channels, 8);
      var _ :- w.WriteUnsigned(substreams, 8);
      w.WriteBytes(mapping);
      r := Ok(());
    case ProjectionMode(channels, substreams, coupled, matrix) =>
      if |matrix| != MatrixLen(channels, substreams, coupled) {
        return Err(GatedFieldMismatch);
      }
      w.WriteUleb128(1);
      var _ :- w.WriteUnsigned(channels, 8);
      var _ :- w.WriteUnsigned(substreams, 8);
      var _ :- w.WriteUnsigned(coupled, 8);
      WriteMatrix(w, matrix);
      r := Ok(());
  }

  method WriteMatrix(w: BitWriter, matrix: seq<i16>)
    requires w.Valid()
    modifies w
    ensures w.Valid() && WMany(old(w.Bits()), matrix, 0, WEntry) == Ok(w.Bits())
  {
    hide WI16, w.Bits, w.Valid;
    for i := 0 to |matrix|
      invariant w.Valid() && WMany(w.Bits(), matrix, i, WEntry) == WMany(old(w.Bits()), matrix, 0, WEntry)
    {
      w.WriteI16(matrix[i]);
    }
  }

  method WriteElementParam(w: BitWriter, v: ElementParam) returns (r: Result<()>)
    requires w.Valid()
    modifies w
    ensures w.Valid() && Did(WElementParam(old(w.Bits()), v), r, w.Bits())
  {
    hide WLeb, WU, WParamDefinition, WSized, w.Bits, w.Valid;
    if v.ExtensionParam? && (v.definitionType == 1 || v.definitionType == 2) {
      return Err(ReservedAliasesDefinedValue);
    }
    w.WriteUleb128(v.DefinitionType());
    match v
    case DemixingParam(definition, mode, reserved, defaultW, reservedW) =>
      var _ :- WriteParamDefinition(w, definition);
      var _ :- w.WriteUnsigned(mode, 3);
      var _ :- w.WriteUnsigned(reserved, 5);
      var _ :- w.WriteUnsigned(defaultW, 4);
      r := w.WriteUnsigned(reservedW, 4);
    case ReconGainParam(definition) => r := WriteParamDefinition(w, definition);
    case ExtensionParam(_, bytes) => r := WriteSized(w, bytes);
  }

  method WriteElementParams(w: BitWriter, params: seq<ElementParam>) returns (r: Result<()>)
    requires w.Valid()
    modifies w
    ensures w.Valid() && Did(WCounted(old(w.Bits()), params, WElementParam), r, w.Bits())
  {
    hide WLeb, WElementParam, w.Bits, w.Valid;
    var _ :- WriteCount(w, |params|);
    ghost var start := w.Bits();
    for i := 0 to |params|
      invariant w.Valid() && WMany(w.Bits(), params, i, WElementParam) == WMany(start, params, 0, WElementParam)
    {
      var _ :- WriteElementParam(w, params[i]);
    }
    r := Ok(());
  }

  method WriteElementBody(w: BitWriter, v: AudioElement) returns (r: Result<()>)
    requires w.Valid()
    modifies w
    ensures w.Valid() && Did(WElementBody(old(w.Bits()), v), r, w.Bits())
  {
    hide WLeb, WU, WCounted, WLebItem, WElementParam, WScalable, WAmbisonics, WBytes, w.Bits, w.Valid;
    if v.elementType.ReservedType? && v.elementType.value <= 1 {
      return Err(ReservedAliasesDefinedValue);
    }
    w.WriteUleb128(v.audioElementId);
    var _ :- w.WriteUnsigned(v.elementType.Value(), 3);
    var _ :- w.WriteUnsigned(v.reserved, 5);
    w.WriteUleb128(v.codecConfigId);
    var _ :- WriteIds(w, v.audioSubstreamIds);
    var _ :- WriteElementParams(w, v.params);
    match v.elementType
    case ChannelBased(reserved, layers) => r := WriteScalable(w, reserved, layers);
    case SceneBased(config) => r := WriteAmbisonics(w, config);
    case ReservedType(_, raw) =>
      w.WriteBytes(raw);
      r := Ok(());
  }

  // ------------------------------------------------------------ mix presentation

  method WriteAnchors(w: BitWriter, anchors: seq<AnchorElement>) returns (r: Result<()>)
    requires w.Valid()
    modifies w
    ensures w.Valid() && Did(WAnchors(old(w.Bits()), anchors), r, w.Bits())
  {
    hide WU, WI16, w.Bits, w.Valid;
    if |anchors| > 255 {
      return Err(ObuTooLarge);
    }
    var _ :- w.WriteUnsigned(|anchors|, 8);
    ghost var start := w.Bits();
    for i := 0 to |anchors|
      invariant w.Valid() && WMany(w.Bits(), anchors, i, WAnchor) == WMany(start, anchors, 0, WAnchor)
    {
      var _ :- w.WriteUnsigned(anchors[i].anchor, 8);
      w.WriteI16(anchors[i].loudness);
    }
    r := Ok(());
  }

  /** `write_loudness`: `info_type` is derived from the members it gates. */
  method WriteLoudness(w: BitWriter, v: Loudness) returns (r: Result<()>)
    requires w.Valid()
    modifies w
    ensures w.Valid() && Did(WLoudness(old(w.Bits()), v), r, w.Bits())
  {
    hide WU, WI16, WAnchors, WSized, ExtensionFits, w.Bits, w.Valid;
    if !ExtensionFits(v) {
      return Err(GatedFieldMismatch);
    }
    var _ :- w.WriteUnsigned(v.InfoType(), 8);
    w.WriteI16(v.integrated);
    w.WriteI16(v.digitalPeak);
    if v.truePeak.Some? {
      w.WriteI16(v.truePeak.value);
    }
    if v.anchored.Some? {
      var _ :- WriteAnchors(w, v.anchored.value);
    }
    if v.extension.Some? {
      var _ :- WriteSized(w, v.extension.value.bytes);
    }
    r := Ok(());
  }

  method WriteMixLayout(w: BitWriter, v: LayoutWithLoudness) returns (r: Result<()>)
    requires w.Valid()
    modifies w
    ensures w.Valid() && Did(WMixLayout(old(w.Bits()), v), r, w.Bits())
  {
    hide WU, WLoudness, w.Bits, w.Valid;
    if v.layout.ReservedMixLayout? && (v.layout.raw == 2 || v.layout.raw == 3) {
      return Err(ReservedAliasesDefinedValue);
    }
    var _ :- w.WriteUnsigned(v.layout.LayoutType(), 2);
    if v.layout.SystemLayout? {
      var _ :- w.WriteUnsigned(v.layout.system.Value(), 4);
      var _ :- w.WriteUnsigned(v.reserved, 2);
    } else {
      var _ :- w.WriteUnsigned(v.reserved, 6);
    }
    r := WriteLoudness(w, v.loudness);
  }

  method WriteMixGainDefinition(w: BitWriter, v: MixGainDefinition) returns (r: Result<()>)
    requires w.Valid()
    modifies w
    ensures w.Valid() && Did(WMixGainDefinition(old(w.Bits()), v), r, w.Bits())
  {
    hide WParamDefinition, WI16, w.Bits, w.Valid;
    var _ :- WriteParamDefinition(w, v.definition);
    w.WriteI16(v.defaultMixGain);
    r := Ok(());
  }

  method WriteTexts(w: BitWriter, texts: seq<seq<u8>>) returns (r: Result<()>)
    requires w.Valid()
    modifies w
    ensures w.Valid() && Did(WMany(old(w.Bits()), texts, 0, WString), r, w.Bits())
  {
    hide WString, w.Bits, w.Valid;
    for i := 0 to |texts|
      invariant w.Valid() && WMany(w.Bits(), texts, i, WString) == WMany(old(w.Bits()), texts, 0, WString)
    {
      var _ :- w.WriteString(texts[i]);
    }
    r := Ok(());
  }

  method WriteSubMixElement(w: BitWriter, v: SubMixElement) returns (r: Result<()>)
    requires w.Valid()
    modifies w
    ensures w.Valid() && Did(WSubMixElement(old(w.Bits()), v), r, w.Bits())
  {
    hide WLeb, WU, WMany, WString, WSized, WMixGainDefinition, w.Bits, w.Valid;
    w.WriteUleb128(v.audioElementId);
    var _ :- WriteTexts(w, v.annotations);
    var _ :- w.WriteUnsigned(v.rendering.mode.Value(), 2);
    var _ :- w.WriteUnsigned(v.rendering.reserved, 6);
    var _ :- WriteSized(w, v.rendering.extension);
    r := WriteMixGainDefinition(w, v.mixGain);
  }

  method WriteSubMixElements(w: BitWriter, elements: seq<SubMixElement>) returns (r: Result<()>)
    requires w.Valid()
    modifies w
    ensures w.Valid() && Did(WCounted(old(w.Bits()), elements, WSubMixElement), r, w.Bits())
  {
    hide WLeb, WSubMixElement, w.Bits, w.Valid;
    var _ :- WriteCount(w, |elements|);
    ghost var start := w.Bits();
    for i := 0 to |elements|
      invariant w.Valid() && WMany(w.Bits(), elements, i, WSubMixElement) == WMany(start, elements, 0, WSubMixElement)
    {
      var _ :- WriteSubMixElement(w, elements[i]);
    }
    r := Ok(());
  }

  method WriteMixLayouts(w: BitWriter, layouts: seq<LayoutWithLoudness>) returns (r: Result<()>)
    requires w.Valid()
    modifies w
    ensures w.Valid() && Did(WCounted(old(w.Bits()), layouts, WMixLayout), r, w.Bits())
  {
    hide WLeb, WMixLayout, w.Bits, w.Valid;
    var _ :- WriteCount(w, |layouts|);
    ghost var start := w.Bits();
    for i := 0 to |layouts|
      invariant w.Valid() && WMany(w.Bits(), layouts, i, WMixLayout) == WMany(start, layouts, 0, WMixLayout)
    {
      var _ :- WriteMixLayout(w, layouts[i]);
    }
    r := Ok(());
  }

  method WriteSubMix(w: BitWriter, v: SubMix) returns (r: Result<()>)
    requires w.Valid()
    modifies w
    ensures w.Valid() && Did(WSubMix(old(w.Bits()), v), r, w.Bits())
  {
    hide WCounted, WSubMixElement, WMixGainDefinition, WMixLayout, w.Bits, w.Valid;
    var _ :- WriteSubMixElements(w, v.elements);
    var _ :- WriteMixGainDefinition(w, v.outputMixGain);
    r := WriteMixLayouts(w, v.layouts);
  }

  method WriteMixBody(w: BitWriter, v: MixPresentation) returns (r: Result<()>)
    requires w.Valid()
    modifies w
    ensures w.Valid() && Did(WMixBody(old(w.Bits()), v), r, w.Bits())
  {
    hide WLeb, WString, WSubMix, w.Bits, w.Valid;
    if !AnnotationCountsMatch(v) {
      return Err(AnnotationCountMismatch);
    }
    w.WriteUleb128(v.mixPresentationId);
    var _ :- WriteCount(w, |v.annotationsLanguage|);
    var _ :- WriteTexts(w, v.annotationsLanguage);
    var _ :- WriteTexts(w, v.presentationAnnotations);
    var _ :- WriteCount(w, |v.subMixes|);
    ghost var start := w.Bits();
    for i := 0 to |v.subMixes|
      invariant w.Valid() && WMany(w.Bits(), v.subMixes, i, WSubMix) == WMany(start, v.subMixes, 0, WSubMix)
    {
      var _ :- WriteSubMix(w, v.subMixes[i]);
    }
    r := Ok(());
  }
}
