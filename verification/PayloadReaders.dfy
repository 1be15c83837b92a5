/** The payload readers as they drive a cursor, each against the function that specifies it. */
module PayloadReaders {
  import opened Core
  import opened Bits
  import opened Leb128
  import opened Lists
  import opened Layouts
  import opened Obus
  import opened ParamDefinitions
  import opened ParameterBlocks
  import opened SequenceHeaders
  import opened CodecConfigs
  import opened AudioElements
  import opened MixPresentations
  import opened AudioFrames
  import opened BitCursors

  // ------------------------------------------------------------ shared pieces

  /** A count, refused against the bytes left before anything is taken. */
  method ReadBoundedCount(r: BitCursor) returns (count: Result<u32>)
    requires r.Valid()
    modifies r`bytePos, r`bitOff
    ensures r.Valid()
    ensures match RLeb(r.Wire(), old(r.Pos()))
            case Err(e) => count == Err(e)
            case Ok((n, q)) =>
              && r.Pos() == q
              && count == if n > Remaining(r.Wire(), q) then Err(UnexpectedEndOfInput) else Ok(n)
  {
    hide RLeb, r.Wire;
    var n :- r.ReadUleb128();
    if n > r.BytesRemaining() {
      return Err(UnexpectedEndOfInput);
    }
    count := Ok(n);
  }

  method ReadSized(r: BitCursor) returns (bytes: Result<seq<u8>>)
    requires r.Valid()
    modifies r`bytePos, r`bitOff
    ensures r.Valid() && Got(RSized(r.Wire(), old(r.Pos())), bytes, r.Pos())
  {
    hide RLeb, RSpan, r.Wire;
    var size :- r.ReadUleb128();
    bytes := r.ReadSpan(size);
  }

  method ReadIds(r: BitCursor) returns (ids: Result<seq<u32>>)
    requires r.Valid()
    modifies r`bytePos, r`bitOff
    ensures r.Valid() && Got(RCounted(r.Wire(), old(r.Pos()), RLeb), ids, r.Pos())
  {
    hide RLeb, r.Wire;
    ghost var d := r.Wire();
    var count :- ReadBoundedCount(r);
    ghost var start := r.Pos();
    var out: seq<u32> := [];
    for i := 0 to count
      invariant r.Valid() && RMany(d, r.Pos(), count - i, out, RLeb) == RMany(d, start, count, [], RLeb)
    {
      var id :- r.ReadUleb128();
      out := out + [id];
    }
    ids := Ok(out);
  }

  method ReadDurationFields(r: BitCursor) returns (v: Result<DurationFields>)
    requires r.Valid()
    modifies r`bytePos, r`bitOff
    ensures r.Valid() && Got(RDurationFields(r.Wire(), old(r.Pos())), v, r.Pos())
  {
    hide RLeb, RCounted, r.Wire;
    var duration :- r.ReadUleb128();
    var constant :- r.ReadUleb128();
    var durations: seq<u32> := [];
    if constant == 0 {
      durations :- ReadIds(r);
    }
    v := Ok(DurationFields(duration, constant, durations));
  }

  method ReadParamDefinition(r: BitCursor) returns (v: Result<ParamDefinition>)
    requires r.Valid()
    modifies r`bytePos, r`bitOff
    ensures r.Valid() && Got(RParamDefinition(r.Wire(), old(r.Pos())), v, r.Pos())
  {
    hide RLeb, RBool, RU8, RDurationFields, r.Wire;
    var parameterId :- r.ReadUleb128();
    var parameterRate :- r.ReadUleb128();
    var mode :- r.ReadBool();
    var reserved :- r.ReadU8(7);
    var fields: Option<DurationFields> := None;
    if !mode {
      var present :- ReadDurationFields(r);
      fields := Some(present);
    }
    v := Ok(ParamDefinition(parameterId, parameterRate, reserved, fields));
  }

  // ------------------------------------------------------------ parameter blocks

  method ReadLayer(r: BitCursor) returns (v: Result<ReconGainElement>)
    requires r.Valid()
    modifies r`bytePos, r`bitOff
    ensures r.Valid() && Got(RLayer(r.Wire(), old(r.Pos())), v, r.Pos())
  {
    hide RLeb, RU8, r.Wire, Selected;
    ghost var d := r.Wire();
    var flag :- r.ReadUleb128();
    ghost var start := r.Pos();
    var gains: seq<u8> := [];
    for k := 0 to 12
      invariant r.Valid() && |gains| == k && RGains(d, r.Pos(), flag, gains) == RGains(d, start, flag, [])
    {
      if Selected(flag, k) {
        var gain :- r.ReadU8(8);
        gains := gains + [gain];
      } else {
        gains := gains + [0];
      }
    }
    v := Ok(ReconGainElement(flag, gains));
  }

  method ReadLayers(r: BitCursor, present: seq<bool>) returns (v: Result<seq<Option<ReconGainElement>>>)
    requires r.Valid()
    modifies r`bytePos, r`bitOff
    ensures r.Valid() && Got(RLayers(r.Wire(), old(r.Pos()), present, []), v, r.Pos())
  {
    hide RLayer, r.Wire;
    ghost var d := r.Wire();
    var layers: seq<Option<ReconGainElement>> := [];
    for i := 0 to |present|
      invariant r.Valid() && |layers| == i
      invariant RLayers(d, r.Pos(), present, layers) == RLayers(d, old(r.Pos()), present, [])
    {
      if present[i] {
        var layer :- ReadLayer(r);
        layers := layers + [Some(layer)];
      } else {
        layers := layers + [None];
      }
    }
    v := Ok(layers);
  }

  method ReadMixGain(r: BitCursor) returns (v: Result<MixGainData>)
    requires r.Valid()
    modifies r`bytePos, r`bitOff
    ensures r.Valid() && Got(RMixGain(r.Wire(), old(r.Pos())), v, r.Pos())
  {
    hide RLeb, RI16, RU8, r.Wire;
    var animation :- r.ReadUleb128();
    if animation > 2 {
      return Err(UnsupportedParameterData);
    }
    var start :- r.ReadI16();
    if animation == 0 {
      return Ok(StepGain(start));
    }
    var end :- r.ReadI16();
    if animation == 1 {
      return Ok(LinearGain(start, end));
    }
    var control :- r.ReadI16();
    var relativeTime :- r.ReadU8(8);
    v := Ok(BezierGain(start, end, control, relativeTime));
  }

  /** `read_parameter_data`. */
  method ReadData(r: BitCursor, context: Context) returns (v: Result<ParameterData>)
    requires r.Valid()
    modifies r`bytePos, r`bitOff
    ensures r.Valid() && Got(RData(r.Wire(), old(r.Pos()), context), v, r.Pos())
  {
    hide RMixGain, RU8, RLayers, RSized, r.Wire;
    match context
    case MixGainContext =>
      var mix :- ReadMixGain(r);
      v := Ok(MixGain(mix));
    case DemixingContext =>
      var mode :- r.ReadU8(3);
      var reserved :- r.ReadU8(5);
      v := Ok(Demixing(mode, reserved));
    case ReconGainContext(present) =>
      var layers :- ReadLayers(r, present);
      v := Ok(ReconGain(layers));
    case ReservedContext(t) =>
      if t <= 2 {
        return Err(UnsupportedParameterData);
      }
      var bytes :- ReadSized(r);
      v := Ok(Raw(bytes));
  }

  method ReadSubblock(r: BitCursor, timed: bool, context: Context) returns (v: Result<Subblock>)
    requires r.Valid()
    modifies r`bytePos, r`bitOff
    ensures r.Valid() && Got(RSubblock(r.Wire(), old(r.Pos()), timed, context), v, r.Pos())
  {
    hide RLeb, RData, r.Wire;
    var duration: Option<u32> := None;
    if timed {
      var present :- r.ReadUleb128();
      duration := Some(present);
    }
    var data :- ReadData(r, context);
    v := Ok(Subblock(duration, data));
  }

  method ReadBlockDurations(r: BitCursor, def: ParamDefinition)
      returns (v: Result<(Option<BlockDurationFields>, u32)>)
    requires r.Valid()
    modifies r`bytePos, r`bitOff
    ensures r.Valid()
    ensures match RBlockDurations(r.Wire(), old(r.Pos()), def)
            case Ok((f, n, q)) => v == Ok((f, n)) && r.Pos() == q
            case Err(e) => v == Err(e)
  {
    hide RLeb, DefinitionCount, ImpliedSubblocks, r.Wire;
    if !def.Mode() {
      var count :- DefinitionCount(def);
      return Ok((None, count));
    }
    var duration :- r.ReadUleb128();
    var constant :- r.ReadUleb128();
    var count: u32 := 0;
    if constant == 0 {
      count :- r.ReadUleb128();
    } else {
      count :- ImpliedSubblocks(duration, constant);
    }
    v := Ok((Some(BlockDurationFields(duration, constant)), count));
  }

  /** `read_parameter_block`: the definition that governs it comes from the registry. */
  method ReadParameterBlock(r: BitCursor, registry: Registry) returns (v: Result<ParameterBlock>)
    requires r.Valid()
    modifies r`bytePos, r`bitOff
    ensures r.Valid() && Got(RParameterBlock(r.Wire(), old(r.Pos()), registry), v, r.Pos())
  {
    hide RLeb, RSubblock, RBlockDurations, Get, DurationSum, r.Wire;
    ghost var d := r.Wire();
    var id :- r.ReadUleb128();
    var registered := Get(registry, id);
    if registered.None? {
      return Err(NoGoverningParamDefinition);
    }
    var def, context := registered.value.definition, registered.value.context;
    var head :- ReadBlockDurations(r, def);
    var fields, count := head.0, head.1;
    var timed := fields.Some? && fields.value.constantSubblockDuration == 0;
    var _ :- CheckSingleSubblock(context, count);
    if !context.ReconGainContext? && count > r.BytesRemaining() {
      return Err(UnexpectedEndOfInput);
    }
    ghost var start := r.Pos();
    ghost var rd := SubblockReader(timed, context);
    var subblocks: seq<Subblock> := [];
    var sum := 0;
    NoDuration();
    for i := 0 to count
      invariant r.Valid() && sum == DurationSum(subblocks)
      invariant RMany(d, r.Pos(), count - i, subblocks, rd) == RMany(d, start, count, [], rd)
    {
      var s :- ReadSubblock(r, timed, context);
      SumSnoc(subblocks, s);
      subblocks := subblocks + [s];
      sum := sum + if s.duration.Some? then s.duration.value else 0;
    }
    if timed && sum != fields.value.duration {
      return Err(SubblockDurationMismatch);
    }
    v := Ok(ParameterBlock(id, fields, subblocks));
  }

  lemma NoDuration()
    ensures DurationSum([]) == 0
  {
  }

  lemma SumSnoc(subblocks: seq<Subblock>, s: Subblock)
    ensures DurationSum(subblocks + [s]) == DurationSum(subblocks) + (if s.duration.Some? then s.duration.value else 0)
  {
    assert (subblocks + [s])[..|subblocks|] == subblocks;
  }

  // ------------------------------------------------------------ header, frames

  method ReadHeaderBody(r: BitCursor) returns (v: Result<IaSequenceHeader>)
    requires r.Valid()
    modifies r`bytePos, r`bitOff
    ensures r.Valid() && Got(RHeaderBody(r.Wire(), old(r.Pos())), v, r.Pos())
  {
    hide RU32, RU8, r.Wire;
    var iaCode :- r.ReadU32(32);
    var primary :- r.ReadU8(8);
    var additional :- r.ReadU8(8);
    v := Ok(IaSequenceHeader(iaCode, primary, additional, []));
  }

  method ReadRest(r: BitCursor) returns (bytes: Result<seq<u8>>)
    requires r.Valid()
    modifies r`bytePos, r`bitOff
    ensures r.Valid() && Got(RRest(r.Wire(), old(r.Pos())), bytes, r.Pos())
  {
    var remaining := r.BytesRemaining();
    bytes := r.ReadSpan(remaining);
  }

  method ReadAudioFrame(r: BitCursor, h: ObuHeader) returns (v: Result<AudioFrame>)
    requires r.Valid()
    modifies r`bytePos, r`bitOff
    ensures r.Valid() && Got(RAudioFrame(r.Wire(), old(r.Pos()), h), v, r.Pos())
  {
    hide RLeb, RRest, r.Wire;
    var implicitId := SubstreamIdFor(h.obuType);
    var id: u32 := 0;
    if implicitId.Some? {
      id := implicitId.value;
    } else {
      if h.obuType.Value() != 5 {
        return Err(NotAnAudioFrame);
      }
      id :- r.ReadUleb128();
    }
    var payload :- ReadRest(r);
    v := Ok(AudioFrame(id, payload));
  }

  // ------------------------------------------------------------ codec config

  method ReadLpcm(r: BitCursor) returns (v: Result<LpcmConfig>)
    requires r.Valid()
    modifies r`bytePos, r`bitOff
    ensures r.Valid() && Got(RLpcm(r.Wire(), old(r.Pos())), v, r.Pos())
  {
    hide RU32, RU8, r.Wire;
    var flags :- r.ReadU8(8);
    var size :- r.ReadU8(8);
    var rate :- r.ReadU32(32);
    v := Ok(LpcmConfig(SampleFormatFlags.FromValue(flags), size, rate));
  }

  method ReadOpus(r: BitCursor) returns (v: Result<OpusConfig>)
    requires r.Valid()
    modifies r`bytePos, r`bitOff
    ensures r.Valid() && Got(ROpus(r.Wire(), old(r.Pos())), v, r.Pos())
  {
    hide RU32, RU16, RU8, RI16, r.Wire;
    var version :- r.ReadU8(8);
    var channels :- r.ReadU8(8);
    var preSkip :- r.ReadU16();
    var rate :- r.ReadU32(32);
    var gain :- r.ReadI16();
    var family :- r.ReadU8(8);
    v := Ok(OpusConfig(version, channels, preSkip, rate, gain, family));
  }

  method ReadFlacSizes(r: BitCursor) returns (v: Result<FlacConfig>)
    requires r.Valid()
    modifies r`bytePos, r`bitOff
    ensures r.Valid() && Got(RFlacSizes(r.Wire(), old(r.Pos())), v, r.Pos())
  {
    hide RU32, RU16, RU8, RBool, r.Wire;
    var lastBlock :- r.ReadBool();
    var blockType :- r.ReadU8(7);
    var length :- r.ReadU32(24);
    var minimumBlock :- r.ReadU16();
    var maximumBlock :- r.ReadU16();
    var minimumFrame :- r.ReadU32(24);
    var maximumFrame :- r.ReadU32(24);
    v := Ok(FlacConfig(lastBlock, blockType, length, minimumBlock, maximumBlock, minimumFrame, maximumFrame,
                       0, 0, 0, 0, NoMd5()));
  }

  method ReadFlac(r: BitCursor) returns (v: Result<FlacConfig>)
    requires r.Valid()
    modifies r`bytePos, r`bitOff
    ensures r.Valid() && Got(RFlac(r.Wire(), old(r.Pos())), v, r.Pos())
  {
    hide RU32, RU8, RU, RSpan, RFlacSizes, Pow2, r.Wire;
    var sizes :- ReadFlacSizes(r);
    var rate :- r.ReadU32(20);
    var channels :- r.ReadU8(3);
    var bits :- r.ReadU8(5);
    Pow36();
    var total :- r.ReadUnsigned(36);
    var md5 :- r.ReadSpan(16);
    v := Ok(sizes.(sampleRate := rate, numberOfChannels := channels, bitsPerSample := bits, totalSamples := total,
                   md5 := md5));
  }

  method ReadAacHead(r: BitCursor) returns (v: Result<AacConfig>)
    requires r.Valid()
    modifies r`bytePos, r`bitOff
    ensures r.Valid() && Got(RAacHead(r.Wire(), old(r.Pos())), v, r.Pos())
  {
    hide RU32, RU8, RBool, r.Wire;
    var _ :- r.ReadU8(8);
    var _ :- r.ReadU8(8);
    var indication :- r.ReadU8(8);
    var streamType :- r.ReadU8(6);
    var upstream :- r.ReadBool();
    var _ :- r.ReadBool();
    var buffer :- r.ReadU32(24);
    var maximum :- r.ReadU32(32);
    var average :- r.ReadU32(32);
    v := Ok(AacConfig(indication, streamType, upstream, buffer, maximum, average, 0, 0, 0, false, false, false));
  }

  method ReadAac(r: BitCursor) returns (v: Result<AacConfig>)
    requires r.Valid()
    modifies r`bytePos, r`bitOff
    ensures r.Valid() && Got(RAac(r.Wire(), old(r.Pos())), v, r.Pos())
  {
    hide RU8, RBool, RAacHead, r.Wire;
    var head :- ReadAacHead(r);
    var _ :- r.ReadU8(8);
    var _ :- r.ReadU8(8);
    var objectType :- r.ReadU8(5);
    var frequency :- r.ReadU8(4);
    var channels :- r.ReadU8(4);
    var frameLength :- r.ReadBool();
    var depends :- r.ReadBool();
    var extension :- r.ReadBool();
    v := Ok(head.(audioObjectType := objectType, samplingFrequencyIndex := frequency,
                  channelConfiguration := channels, frameLengthFlag := frameLength, dependsOnCoreCoder := depends,
                  extensionFlag := extension));
  }

  /** Typed when the codec id is known and the config is long enough; otherwise the bytes as they are. */
  method ReadDecoderConfig(r: BitCursor, codecId: CodecId) returns (v: Result<DecoderConfig>)
    requires r.Valid()
    modifies r`bytePos, r`bitOff
    ensures r.Valid() && Got(RDecoderConfig(r.Wire(), old(r.Pos()), codecId), v, r.Pos())
  {
    hide RLpcm, RFlac, ROpus, RAac, RRest, IsAacDescriptor, r.Wire;
    var left := r.BytesRemaining();
    if codecId == LPCM && left >= LPCM_BYTES {
      var lpcm :- ReadLpcm(r);
      return Ok(Lpcm(lpcm));
    }
    if codecId == FLAC && left >= FLAC_BYTES {
      var flac :- ReadFlac(r);
      return Ok(Flac(flac));
    }
    if codecId == OPUS && left >= OPUS_BYTES {
      var opus :- ReadOpus(r);
      return Ok(Opus(opus));
    }
    var probe := r.Clone();
    var bytes :- ReadRest(probe);
    if codecId == AAC && |bytes| >= AAC_BYTES && IsAacDescriptor(bytes[..AAC_BYTES]) {
      var aac :- ReadAac(r);
      return Ok(AacLc(aac));
    }
    var whole := ReadRest(r);
    v := Ok(RawConfig(codecId, whole.value));
  }

  method ReadCodecBody(r: BitCursor) returns (v: Result<CodecConfig>)
    requires r.Valid()
    modifies r`bytePos, r`bitOff
    ensures r.Valid() && Got(RCodecBody(r.Wire(), old(r.Pos())), v, r.Pos())
  {
    hide RLeb, RSpan, RI16, RDecoderConfig, r.Wire;
    var id :- r.ReadUleb128();
    var codecId :- r.ReadSpan(4);
    var samples :- r.ReadUleb128();
    var roll :- r.ReadI16();
    var decoder :- ReadDecoderConfig(r, codecId);
    v := Ok(CodecConfig(id, codecId, samples, roll, decoder, []));
  }

  // ------------------------------------------------------------ audio element

  method ReadLayerHead(r: BitCursor) returns (v: Result<LayerHead>)
    requires r.Valid()
    modifies r`bytePos, r`bitOff
    ensures r.Valid() && Got(RLayerHead(r.Wire(), old(r.Pos())), v, r.Pos())
  {
    hide RU8, RBool, r.Wire;
    var layoutBits :- r.ReadU8(4);
    var gated :- r.ReadBool();
    var reconGain :- r.ReadBool();
    var reserved :- r.ReadU8(2);
    var substreams :- r.ReadU8(8);
    var coupled :- r.ReadU8(8);
    v := Ok(LayerHead(layoutBits, gated, reconGain, reserved, substreams, coupled));
  }

  method ReadChannelLayer(r: BitCursor) returns (v: Result<ChannelLayer>)
    requires r.Valid()
    modifies r`bytePos, r`bitOff
    ensures r.Valid() && Got(RChannelLayer(r.Wire(), old(r.Pos())), v, r.Pos())
  {
    hide RU8, RI16, RLayerHead, r.Wire, LoudspeakerLayout.FromValue, ExpandedLayout.FromValue;
    var head :- ReadLayerHead(r);
    var gain: Option<OutputGain> := None;
    if head.gated {
      var flags :- r.ReadU8(6);
      var reserved :- r.ReadU8(2);
      var value :- r.ReadI16();
      gain := Some(OutputGain(flags, reserved, value));
    }
    var known := LoudspeakerLayout.FromValue(head.layoutBits);
    var layout := Mono;
    if known.Some? {
      layout := known.value;
    } else {
      var expanded :- r.ReadU8(8);
      layout := Expanded(ExpandedLayout.FromValue(expanded));
    }
    v := Ok(ChannelLayer(layout, gain, head.reconGain, head.reserved, head.substreams, head.coupled));
  }

  method ReadScalable(r: BitCursor) returns (v: Result<ElementType>)
    requires r.Valid()
    modifies r`bytePos, r`bitOff
    ensures r.Valid() && Got(RScalable(r.Wire(), old(r.Pos())), v, r.Pos())
  {
    hide RU8, RChannelLayer, r.Wire;
    ghost var d := r.Wire();
    var count :- r.ReadU8(3);
    var reserved :- r.ReadU8(5);
    if count > r.BytesRemaining() {
      return Err(UnexpectedEndOfInput);
    }
    ghost var start := r.Pos();
    var layers: seq<ChannelLayer> := [];
    for i := 0 to count
      invariant r.Valid()
      invariant RMany(d, r.Pos(), count - i, layers, RChannelLayer) == RMany(d, start, count, [], RChannelLayer)
    {
      var layer :- ReadChannelLayer(r);
      layers := layers + [layer];
    }
    v := Ok(ChannelBased(reserved, layers));
  }

  method ReadMatrix(r: BitCursor, entries: nat) returns (v: Result<seq<i16>>)
    requires r.Valid()
    modifies r`bytePos, r`bitOff
    ensures r.Valid() && Got(RMany(r.Wire(), old(r.Pos()), entries, [], RI16), v, r.Pos())
  {
    hide RI16, r.Wire;
    ghost var d := r.Wire();
    var matrix: seq<i16> := [];
    for i := 0 to entries
      invariant r.Valid() && RMany(d, r.Pos(), entries - i, matrix, RI16) == RMany(d, old(r.Pos()), entries, [], RI16)
    {
      var entry :- r.ReadI16();
      matrix := matrix + [entry];
    }
    v := Ok(matrix);
  }

  method ReadAmbisonics(r: BitCursor) returns (v: Result<AmbisonicsConfig>)
    requires r.Valid()
    modifies r`bytePos, r`bitOff
    ensures r.Valid() && Got(RAmbisonics(r.Wire(), old(r.Pos())), v, r.Pos())
  {
    hide RLeb, RU8, RSpan, RMany, MatrixLen, r.Wire;
    var mode :- r.ReadUleb128();
    if mode >= 2 {
      return Ok(ReservedMode(mode));
    }
    var channels :- r.ReadU8(8);
    var substreams :- r.ReadU8(8);
    if mode == 0 {
      if channels > r.BytesRemaining() {
        return Err(UnexpectedEndOfInput);
      }
      var mapping :- r.ReadSpan(channels);
      return Ok(MonoMode(channels, substreams, mapping));
    }
    var coupled :- r.ReadU8(8);
    var entries := MatrixLen(channels, substreams, coupled);
    if 2 * entries > r.BytesRemaining() {
      return Err(UnexpectedEndOfInput);
    }
    var matrix :- ReadMatrix(r, entries);
    v := Ok(ProjectionMode(channels, substreams, coupled, matrix));
  }

  method ReadElementParam(r: BitCursor) returns (v: Result<ElementParam>)
    requires r.Valid()
    modifies r`bytePos, r`bitOff
    ensures r.Valid() && Got(RElementParam(r.Wire(), old(r.Pos())), v, r.Pos())
  {
    hide RLeb, RU8, RParamDefinition, RSized, r.Wire;
    var t :- r.ReadUleb128();
    if t == 1 {
      var definition :- ReadParamDefinition(r);
      var mode :- r.ReadU8(3);
      var reserved :- r.ReadU8(5);
      var defaultW :- r.ReadU8(4);
      var reservedW :- r.ReadU8(4);
      return Ok(DemixingParam(definition, mode, reserved, defaultW, reservedW));
    }
    if t == 2 {
      var definition :- ReadParamDefinition(r);
      return Ok(ReconGainParam(definition));
    }
    var bytes :- ReadSized(r);
    v := Ok(ExtensionParam(t, bytes));
  }

  method ReadElementParams(r: BitCursor) returns (v: Result<seq<ElementParam>>)
    requires r.Valid()
    modifies r`bytePos, r`bitOff
    ensures r.Valid() && Got(RCounted(r.Wire(), old(r.Pos()), RElementParam), v, r.Pos())
  {
    hide RLeb, RElementParam, r.Wire;
    ghost var d := r.Wire();
    var count :- ReadBoundedCount(r);
    ghost var start := r.Pos();
    var out: seq<ElementParam> := [];
    for i := 0 to count
      invariant r.Valid()
      invariant RMany(d, r.Pos(), count - i, out, RElementParam) == RMany(d, start, count, [], RElementParam)
    {
      var param :- ReadElementParam(r);
      out := out + [param];
    }
    v := Ok(out);
  }

  method ReadElementType(r: BitCursor, value: u8) returns (v: Result<ElementType>)
    requires r.Valid()
    modifies r`bytePos, r`bitOff
    ensures r.Valid() && Got(RElementType(r.Wire(), old(r.Pos()), value), v, r.Pos())
  {
    hide RScalable, RAmbisonics, RRest, r.Wire;
    if value == 0 {
      v := ReadScalable(r);
    } else if value == 1 {
      var config :- ReadAmbisonics(r);
      v := Ok(SceneBased(config));
    } else {
      var raw :- ReadRest(r);
      v := Ok(ReservedType(value, raw));
    }
  }

  method ReadElementBody(r: BitCursor) returns (v: Result<AudioElement>)
    requires r.Valid()
    modifies r`bytePos, r`bitOff
    ensures r.Valid() && Got(RElementBody(r.Wire(), old(r.Pos())), v, r.Pos())
  {
    hide RLeb, RU8, RCounted, RElementParam, RElementType, r.Wire;
    var id :- r.ReadUleb128();
    var typeValue :- r.ReadU8(3);
    var reserved :- r.ReadU8(5);
    var codecConfigId :- r.ReadUleb128();
    var substreams :- ReadIds(r);
    var params :- ReadElementParams(r);
    var elementType :- ReadElementType(r, typeValue);
    v := Ok(AudioElement(id, reserved, elementType, codecConfigId, substreams, params, []));
  }

  // ------------------------------------------------------------ mix presentation

  method ReadAnchors(r: BitCursor) returns (v: Result<seq<AnchorElement>>)
    requires r.Valid()
    modifies r`bytePos, r`bitOff
    ensures r.Valid() && Got(RAnchors(r.Wire(), old(r.Pos())), v, r.Pos())
  {
    hide RU8, RI16, r.Wire;
    ghost var d := r.Wire();
    var count :- r.ReadU8(8);
    if 3 * count > r.BytesRemaining() {
      return Err(UnexpectedEndOfInput);
    }
    ghost var start := r.Pos();
    var out: seq<AnchorElement> := [];
    for i := 0 to count
      invariant r.Valid() && RMany(d, r.Pos(), count - i, out, RAnchor) == RMany(d, start, count, [], RAnchor)
    {
      var anchor :- r.ReadU8(8);
      var loudness :- r.ReadI16();
      out := out + [AnchorElement(anchor, loudness)];
    }
    v := Ok(out);
  }

  method ReadLoudness(r: BitCursor) returns (v: Result<Loudness>)
    requires r.Valid()
    modifies r`bytePos, r`bitOff
    ensures r.Valid() && Got(RLoudness(r.Wire(), old(r.Pos())), v, r.Pos())
  {
    hide RU8, RI16, RAnchors, RSized, r.Wire;
    var infoType :- r.ReadU8(8);
    var integrated :- r.ReadI16();
    var digitalPeak :- r.ReadI16();
    var truePeak: Option<i16> := None;
    if infoType % 2 != 0 {
      var present :- r.ReadI16();
      truePeak := Some(present);
    }
    var anchored: Option<seq<AnchorElement>> := None;
    if infoType / 2 % 2 != 0 {
      var present :- ReadAnchors(r);
      anchored := Some(present);
    }
    var extension: Option<LoudnessExtension> := None;
    if infoType / 4 * 4 != 0 {
      var bytes :- ReadSized(r);
      extension := Some(LoudnessExtension(infoType / 4 * 4, bytes));
    }
    v := Ok(Loudness(integrated, digitalPeak, truePeak, anchored, extension));
  }

  method ReadMixLayout(r: BitCursor) returns (v: Result<LayoutWithLoudness>)
    requires r.Valid()
    modifies r`bytePos, r`bitOff
    ensures r.Valid() && Got(RMixLayout(r.Wire(), old(r.Pos())), v, r.Pos())
  {
    hide RU8, RLoudness, r.Wire, SoundSystem.FromValue;
    var layoutType :- r.ReadU8(2);
    var layout := BinauralLayout;
    var reserved: u8 := 0;
    if layoutType == 2 {
      var system :- r.ReadU8(4);
      layout := SystemLayout(SoundSystem.FromValue(system));
      reserved :- r.ReadU8(2);
    } else {
      if layoutType != 3 {
        layout := ReservedMixLayout(layoutType);
      }
      reserved :- r.ReadU8(6);
    }
    var loudness :- ReadLoudness(r);
    v := Ok(LayoutWithLoudness(layout, reserved, loudness));
  }

  method ReadMixGainDefinition(r: BitCursor) returns (v: Result<MixGainDefinition>)
    requires r.Valid()
    modifies r`bytePos, r`bitOff
    ensures r.Valid() && Got(RMixGainDefinition(r.Wire(), old(r.Pos())), v, r.Pos())
  {
    hide RParamDefinition, RI16, r.Wire;
    var definition :- ReadParamDefinition(r);
    var gain :- r.ReadI16();
    v := Ok(MixGainDefinition(definition, gain));
  }

  /** A string without the terminator that `ReadString` returns. */
  method ReadText(r: BitCursor) returns (v: Result<seq<u8>>)
    requires r.Valid()
    modifies r`bytePos, r`bitOff
    ensures r.Valid() && Got(RText(r.Wire(), old(r.Pos())), v, r.Pos())
  {
    hide r.Wire;
    var bytes :- r.ReadString();
    v := Ok(bytes[..|bytes| - 1]);
  }

  method ReadTextList(r: BitCursor, count: nat) returns (v: Result<seq<seq<u8>>>)
    requires r.Valid()
    modifies r`bytePos, r`bitOff
    ensures r.Valid() && Got(RMany(r.Wire(), old(r.Pos()), count, [], RText), v, r.Pos())
  {
    hide RText, r.Wire;
    ghost var d := r.Wire();
    var out: seq<seq<u8>> := [];
    for i := 0 to count
      invariant r.Valid() && RMany(d, r.Pos(), count - i, out, RText) == RMany(d, old(r.Pos()), count, [], RText)
    {
      var text :- ReadText(r);
      out := out + [text];
    }
    v := Ok(out);
  }

  method ReadTexts(r: BitCursor, count: nat) returns (v: Result<seq<seq<u8>>>)
    requires r.Valid()
    modifies r`bytePos, r`bitOff
    ensures r.Valid() && Got(RTexts(r.Wire(), old(r.Pos()), count), v, r.Pos())
  {
    hide RMany, RText, r.Wire;
    if count > r.BytesRemaining() {
      return Err(UnexpectedEndOfInput);
    }
    v := ReadTextList(r, count);
  }

  method ReadSubMixElement(r: BitCursor, countLabel: nat) returns (v: Result<SubMixElement>)
    requires r.Valid()
    modifies r`bytePos, r`bitOff
    ensures r.Valid() && Got(RSubMixElement(r.Wire(), old(r.Pos()), countLabel), v, r.Pos())
  {
    hide RLeb, RU8, RTexts, RSized, RMixGainDefinition, r.Wire;
    var id :- r.ReadUleb128();
    var annotations :- ReadTexts(r, countLabel);
    var mode :- r.ReadU8(2);
    var reserved :- r.ReadU8(6);
    var extension :- ReadSized(r);
    var gain :- ReadMixGainDefinition(r);
    v := Ok(SubMixElement(id, annotations, RenderingConfig(HeadphonesMode.FromValue(mode), reserved, extension), gain));
  }

  method ReadSubMixElements(r: BitCursor, countLabel: nat) returns (v: Result<seq<SubMixElement>>)
    requires r.Valid()
    modifies r`bytePos, r`bitOff
    ensures r.Valid() && Got(RCounted(r.Wire(), old(r.Pos()), SubMixElementReader(countLabel)), v, r.Pos())
  {
    hide RLeb, RSubMixElement, r.Wire;
    ghost var d := r.Wire();
    ghost var rd := SubMixElementReader(countLabel);
    var count :- ReadBoundedCount(r);
    ghost var start := r.Pos();
    var out: seq<SubMixElement> := [];
    for i := 0 to count
      invariant r.Valid() && RMany(d, r.Pos(), count - i, out, rd) == RMany(d, start, count, [], rd)
    {
      var element :- ReadSubMixElement(r, countLabel);
      out := out + [element];
    }
    v := Ok(out);
  }

  method ReadMixLayouts(r: BitCursor) returns (v: Result<seq<LayoutWithLoudness>>)
    requires r.Valid()
    modifies r`bytePos, r`bitOff
    ensures r.Valid() && Got(RCounted(r.Wire(), old(r.Pos()), RMixLayout), v, r.Pos())
  {
    hide RLeb, RMixLayout, r.Wire;
    ghost var d := r.Wire();
    var count :- ReadBoundedCount(r);
    ghost var start := r.Pos();
    var out: seq<LayoutWithLoudness> := [];
    for i := 0 to count
      invariant r.Valid() && RMany(d, r.Pos(), count - i, out, RMixLayout) == RMany(d, start, count, [], RMixLayout)
    {
      var layout :- ReadMixLayout(r);
      out := out + [layout];
    }
    v := Ok(out);
  }

  method ReadSubMix(r: BitCursor, countLabel: nat) returns (v: Result<SubMix>)
    requires r.Valid()
    modifies r`bytePos, r`bitOff
    ensures r.Valid() && Got(RSubMix(r.Wire(), old(r.Pos()), countLabel), v, r.Pos())
  {
    hide RCounted, SubMixElementReader, RMixGainDefinition, RMixLayout, r.Wire;
    var elements :- ReadSubMixElements(r, countLabel);
    var gain :- ReadMixGainDefinition(r);
    var layouts :- ReadMixLayouts(r);
    v := Ok(SubMix(elements, gain, layouts));
  }

  method ReadSubMixes(r: BitCursor, countLabel: nat) returns (v: Result<seq<SubMix>>)
    requires r.Valid()
    modifies r`bytePos, r`bitOff
    ensures r.Valid() && Got(RCounted(r.Wire(), old(r.Pos()), SubMixReader(countLabel)), v, r.Pos())
  {
    hide RLeb, RSubMix, r.Wire;
    ghost var d := r.Wire();
    ghost var rd := SubMixReader(countLabel);
    var count :- ReadBoundedCount(r);
    ghost var start := r.Pos();
    var out: seq<SubMix> := [];
    for i := 0 to count
      invariant r.Valid() && RMany(d, r.Pos(), count - i, out, rd) == RMany(d, start, count, [], rd)
    {
      var s :- ReadSubMix(r, countLabel);
      out := out + [s];
    }
    v := Ok(out);
  }

  method ReadLanguages(r: BitCursor) returns (v: Result<seq<seq<u8>>>)
    requires r.Valid()
    modifies r`bytePos, r`bitOff
    ensures r.Valid() && Got(RCounted(r.Wire(), old(r.Pos()), RText), v, r.Pos())
  {
    hide RLeb, RText, RMany, r.Wire;
    var count :- ReadBoundedCount(r);
    v := ReadTextList(r, count);
  }

  method ReadMixBody(r: BitCursor) returns (v: Result<MixPresentation>)
    requires r.Valid()
    modifies r`bytePos, r`bitOff
    ensures r.Valid() && Got(RMixBody(r.Wire(), old(r.Pos())), v, r.Pos())
  {
    hide RLeb, RCounted, RText, RTexts, SubMixReader, r.Wire;
    var id :- r.ReadUleb128();
    var languages :- ReadLanguages(r);
    var annotations :- ReadTexts(r, |languages|);
    var subMixes :- ReadSubMixes(r, |languages|);
    v := Ok(MixPresentation(id, languages, annotations, subMixes, []));
  }
}
