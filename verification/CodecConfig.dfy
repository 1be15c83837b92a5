/** The Codec Config payload: four typed decoder configs and the raw fallback. */
module CodecConfigs {
  import opened Core
  import opened Bits
  import opened Leb128

  type CodecId = s: seq<u8> | |s| == 4 witness [0, 0, 0, 0]
  type Md5 = s: seq<u8> | |s| == 16 witness seq(16, _ => 0)
  type u36 = x: int | 0 <= x < 0x10_0000_0000

  const LPCM: CodecId := [0x69, 0x70, 0x63, 0x6d]
  const OPUS: CodecId := [0x4f, 0x70, 0x75, 0x73]
  const FLAC: CodecId := [0x66, 0x4c, 0x61, 0x43]
  const AAC: CodecId := [0x6d, 0x70, 0x34, 0x61]

  const LPCM_BYTES := 6
  const OPUS_BYTES := 11
  const AAC_BYTES := 19
  const FLAC_BYTES := 38

  datatype SampleFormatFlags = BigEndian | LittleEndian | ReservedFormat(raw: u8)
  {
    function Value(): u8 {
      match this
      case BigEndian => 0
      case LittleEndian => 1
      case ReservedFormat(raw) => raw
    }

    static function FromValue(value: u8): SampleFormatFlags {
      if value == 0 then BigEndian else if value == 1 then LittleEndian else ReservedFormat(value)
    }

    /** The form a reader produces: a reserved value is not a defined one. */
    predicate Canonical() {
      this == FromValue(Value())
    }
  }

  datatype LpcmConfig = LpcmConfig(flags: SampleFormatFlags, sampleSize: u8, sampleRate: u32)

  datatype FlacConfig = FlacConfig(
    lastMetadataBlock: bool, metadataBlockType: u8, metadataDataBlockLength: u32,
    minimumBlockSize: u16, maximumBlockSize: u16, minimumFrameSize: u32, maximumFrameSize: u32,
    sampleRate: u32, numberOfChannels: u8, bitsPerSample: u8, totalSamples: u64, md5: Md5)

  datatype OpusConfig = OpusConfig(
    version: u8, outputChannelCount: u8, preSkip: u16, inputSampleRate: u32, outputGain: i16, mappingFamily: u8)

  datatype AacConfig = AacConfig(
    objectTypeIndication: u8, streamType: u8, upstream: bool, bufferSizeDb: u32, maxBitrate: u32, avgBitrate: u32,
    audioObjectType: u8, samplingFrequencyIndex: u8, channelConfiguration: u8,
    frameLengthFlag: bool, dependsOnCoreCoder: bool, extensionFlag: bool)

  datatype DecoderConfig =
    | Lpcm(lpcm: LpcmConfig)
    | Flac(flac: FlacConfig)
    | Opus(opus: OpusConfig)
    | AacLc(aac: AacConfig)
    | RawConfig(codecId: CodecId, bytes: seq<u8>)

  datatype CodecConfig = CodecConfig(
    codecConfigId: u32, codecId: CodecId, numSamplesPerFrame: u32, audioRollDistance: i16,
    decoderConfig: DecoderConfig, trailing: seq<u8>)

  // ----------------------------------------------------- the decoder configs

  function WLpcm(w: BitSeq, v: LpcmConfig): Result<BitSeq> {
    var w :- WU(w, v.flags.Value(), 8);
    var w :- WU(w, v.sampleSize, 8);
    WU(w, v.sampleRate, 32)
  }

  function RLpcm(d: BitSeq, p: nat): Result<(LpcmConfig, nat)> {
    var (flags, p) :- RU8(d, p, 8);
    var (size, p) :- RU8(d, p, 8);
    var (rate, p) :- RU32(d, p, 32);
    Ok((LpcmConfig(SampleFormatFlags.FromValue(flags), size, rate), p))
  }

  function WOpus(w: BitSeq, v: OpusConfig): Result<BitSeq> {
    var w :- WU(w, v.version, 8);
    var w :- WU(w, v.outputChannelCount, 8);
    var w :- WU(w, v.preSkip, 16);
    var w :- WU(w, v.inputSampleRate, 32);
    WU(WI16(w, v.outputGain), v.mappingFamily, 8)
  }

  function ROpus(d: BitSeq, p: nat): Result<(OpusConfig, nat)> {
    var (version, p) :- RU8(d, p, 8);
    var (channels, p) :- RU8(d, p, 8);
    var (preSkip, p) :- RU16(d, p);
    var (rate, p) :- RU32(d, p, 32);
    var (gain, p) :- RI16(d, p);
    var (family, p) :- RU8(d, p, 8);
    Ok((OpusConfig(version, channels, preSkip, rate, gain, family), p))
  }

  /** The metadata block header and the block and frame sizes of STREAMINFO. */
  function WFlacSizes(w: BitSeq, v: FlacConfig): Result<BitSeq> {
    var w :- WU(WBool(w, v.lastMetadataBlock), v.metadataBlockType, 7);
    var w :- WU(w, v.metadataDataBlockLength, 24);
    var w :- WU(w, v.minimumBlockSize, 16);
    var w :- WU(w, v.maximumBlockSize, 16);
    var w :- WU(w, v.minimumFrameSize, 24);
    WU(w, v.maximumFrameSize, 24)
  }

  function WFlac(w: BitSeq, v: FlacConfig): Result<BitSeq> {
    var w :- WFlacSizes(w, v);
    var w :- WU(w, v.sampleRate, 20);
    var w :- WU(w, v.numberOfChannels, 3);
    var w :- WU(w, v.bitsPerSample, 5);
    var w :- WU(w, v.totalSamples, 36);
    Ok(WBytes(w, v.md5))
  }

  function RFlacSizes(d: BitSeq, p: nat): Result<(FlacConfig, nat)> {
    var (last, p) :- RBool(d, p);
    var (blockType, p) :- RU8(d, p, 7);
    var (length, p) :- RU32(d, p, 24);
    var (minimumBlock, p) :- RU16(d, p);
    var (maximumBlock, p) :- RU16(d, p);
    var (minimumFrame, p) :- RU32(d, p, 24);
    var (maximumFrame, p) :- RU32(d, p, 24);
    Ok((FlacConfig(last, blockType, length, minimumBlock, maximumBlock, minimumFrame, maximumFrame,
                   0, 0, 0, 0, NoMd5()), p))
  }

  function NoMd5(): Md5 {
    seq(16, _ => 0)
  }

  function RFlac(d: BitSeq, p: nat): Result<(FlacConfig, nat)> {
    var (sizes, p) :- RFlacSizes(d, p);
    var (rate, p) :- RU32(d, p, 20);
    var (channels, p) :- RU8(d, p, 3);
    var (bits, p) :- RU8(d, p, 5);
    var (total, p) :- RU36(d, p);
    var (md5, p) :- RSpan(d, p, 16);
    Ok((sizes.(sampleRate := rate, numberOfChannels := channels, bitsPerSample := bits, totalSamples := total,
               md5 := md5), p))
  }

  function RU36(d: BitSeq, p: nat): (r: Result<(u36, nat)>)
    ensures r.Ok? ==> r.value.1 == p + 36 <= |d|
  {
    var (v, p) :- RU(d, p, 36);
    Pow36();
    Ok((v, p))
  }

  lemma Pow36()
    ensures Pow2(36) == 0x10_0000_0000
  {
    PowersOfTwo();
    assert Pow2(36) == 16 * Pow2(32);
  }

  /** The MPEG-4 DecoderConfigDescriptor up to its specific-info descriptor. */
  function WAacHead(w: BitSeq, v: AacConfig): Result<BitSeq> {
    var w :- WU(w + BitsOf(4, 8) + BitsOf(17, 8), v.objectTypeIndication, 8);
    var w :- WU(w, v.streamType, 6);
    var w :- WU(WBool(WBool(w, v.upstream), true), v.bufferSizeDb, 24);
    var w :- WU(w, v.maxBitrate, 32);
    WU(w, v.avgBitrate, 32)
  }

  /** The specific-info descriptor and its two-byte AudioSpecificConfig. */
  function WAacTail(w: BitSeq, v: AacConfig): Result<BitSeq> {
    var w :- WU(w + BitsOf(5, 8) + BitsOf(2, 8), v.audioObjectType, 5);
    var w :- WU(w, v.samplingFrequencyIndex, 4);
    var w :- WU(w, v.channelConfiguration, 4);
    Ok(WBool(WBool(WBool(w, v.frameLengthFlag), v.dependsOnCoreCoder), v.extensionFlag))
  }

  function WAac(w: BitSeq, v: AacConfig): Result<BitSeq> {
    var w :- WAacHead(w, v);
    WAacTail(w, v)
  }

  function RAacHead(d: BitSeq, p: nat): Result<(AacConfig, nat)> {
    var (_, p) :- RU8(d, p, 8);
    var (_, p) :- RU8(d, p, 8);
    var (indication, p) :- RU8(d, p, 8);
    var (streamType, p) :- RU8(d, p, 6);
    var (upstream, p) :- RBool(d, p);
    var (_, p) :- RBool(d, p);
    var (buffer, p) :- RU32(d, p, 24);
    var (maximum, p) :- RU32(d, p, 32);
    var (average, p) :- RU32(d, p, 32);
    Ok((AacConfig(indication, streamType, upstream, buffer, maximum, average, 0, 0, 0, false, false, false), p))
  }

  function RAac(d: BitSeq, p: nat): Result<(AacConfig, nat)> {
    var (head, p) :- RAacHead(d, p);
    var (_, p) :- RU8(d, p, 8);
    var (_, p) :- RU8(d, p, 8);
    var (objectType, p) :- RU8(d, p, 5);
    var (frequency, p) :- RU8(d, p, 4);
    var (channels, p) :- RU8(d, p, 4);
    var (frameLength, p) :- RBool(d, p);
    var (depends, p) :- RBool(d, p);
    var (extension, p) :- RBool(d, p);
    Ok((head.(audioObjectType := objectType, samplingFrequencyIndex := frequency, channelConfiguration := channels,
              frameLengthFlag := frameLength, dependsOnCoreCoder := depends, extensionFlag := extension), p))
  }

  /** The only descriptor envelope that is typed; any other `mp4a` payload stays raw. */
  predicate IsAacDescriptor(b: seq<u8>) {
    |b| == AAC_BYTES && b[0] == 4 && b[1] == 17 && b[3] % 2 == 1 && b[15] == 5 && b[16] == 2
  }

  // -------------------------------------------------------------- the payload

  function WDecoderConfig(w: BitSeq, v: DecoderConfig): Result<BitSeq> {
    match v
    case Lpcm(lpcm) => WLpcm(w, lpcm)
    case Flac(flac) => WFlac(w, flac)
    case Opus(opus) => WOpus(w, opus)
    case AacLc(aac) => WAac(w, aac)
    case RawConfig(_, bytes) => Ok(WBytes(w, bytes))
  }

  function RDecoderConfig(d: BitSeq, p: nat, codecId: CodecId): Result<(DecoderConfig, nat)> {
    if codecId == LPCM && Remaining(d, p) >= LPCM_BYTES then
      var (v, p) :- RLpcm(d, p);
      Ok((Lpcm(v), p))
    else if codecId == FLAC && Remaining(d, p) >= FLAC_BYTES then
      var (v, p) :- RFlac(d, p);
      Ok((Flac(v), p))
    else if codecId == OPUS && Remaining(d, p) >= OPUS_BYTES then
      var (v, p) :- ROpus(d, p);
      Ok((Opus(v), p))
    else
      var (rest, end) :- RRest(d, p);
      if codecId == AAC && |rest| >= AAC_BYTES && IsAacDescriptor(rest[..AAC_BYTES]) then
        var (v, p) :- RAac(d, p);
        Ok((AacLc(v), p))
      else Ok((RawConfig(codecId, rest), end))
  }

  function WCodecBody(w: BitSeq, v: CodecConfig): Result<BitSeq> {
    hide WLeb;
    var w := WLeb(WBytes(WLeb(w, v.codecConfigId), v.codecId), v.numSamplesPerFrame);
    WDecoderConfig(WI16(w, v.audioRollDistance), v.decoderConfig)
  }

  function RCodecBody(d: BitSeq, p: nat): Result<(CodecConfig, nat)> {
    hide RLeb;
    var (id, p) :- RLeb(d, p);
    var (codecId, p) :- RSpan(d, p, 4);
    var (samples, p) :- RLeb(d, p);
    var (roll, p) :- RI16(d, p);
    var (decoder, p) :- RDecoderConfig(d, p, codecId);
    Ok((CodecConfig(id, codecId, samples, roll, decoder, []), p))
  }

  predicate CodecMinimal(d: BitSeq, p: nat) {
    LebMinimal(d, p) && LebMinimal(d, End(RLeb(d, p)) + 32)
  }

  // ------------------------------------------------------------ properties

  lemma StepLpcm(w: BitSeq, v: LpcmConfig, d: BitSeq) returns (w1: BitSeq)
    requires v.flags.Canonical() && WLpcm(w, v).Ok? && WLpcm(w, v).value <= d
    ensures w1 == WLpcm(w, v).value && w <= w1 && |w1| == |w| + 48 && RLpcm(d, |w|) == Ok((v, |w1|))
  {
    hide WU, RU8, RU32;
    w1 := StepU8(w, v.flags.Value(), 8, d);
    w1 := StepU8(w1, v.sampleSize, 8, d);
    w1 := StepU32(w1, v.sampleRate, 32, d);
  }

  lemma StepOpus(w: BitSeq, v: OpusConfig, d: BitSeq) returns (w1: BitSeq)
    requires WOpus(w, v).Ok? && WOpus(w, v).value <= d
    ensures w1 == WOpus(w, v).value && w <= w1 && |w1| == |w| + 88 && ROpus(d, |w|) == Ok((v, |w1|))
  {
    hide WU, RU8, RU16, RU32, WI16, RI16;
    w1 := StepU8(w, v.version, 8, d);
    w1 := StepU8(w1, v.outputChannelCount, 8, d);
    w1 := StepU16(w1, v.preSkip, d);
    w1 := StepU32(w1, v.inputSampleRate, 32, d);
    w1 := StepI16(w1, v.outputGain, d);
    w1 := StepU8(w1, v.mappingFamily, 8, d);
  }

  lemma StepFlacSizes(w: BitSeq, v: FlacConfig, d: BitSeq) returns (w1: BitSeq)
    requires WFlacSizes(w, v).Ok? && WFlacSizes(w, v).value <= d
    ensures w1 == WFlacSizes(w, v).value && w <= w1 && |w1| == |w| + 112
    ensures RFlacSizes(d, |w|) == Ok((v.(sampleRate := 0, numberOfChannels := 0, bitsPerSample := 0, totalSamples := 0,
                                         md5 := NoMd5()), |w1|))
  {
    hide WU, RU8, RU16, RU32, WBool, RBool;
    w1 := StepBool(w, v.lastMetadataBlock, d);
    w1 := StepU8(w1, v.metadataBlockType, 7, d);
    w1 := StepU32(w1, v.metadataDataBlockLength, 24, d);
    w1 := StepU16(w1, v.minimumBlockSize, d);
    w1 := StepU16(w1, v.maximumBlockSize, d);
    w1 := StepU32(w1, v.minimumFrameSize, 24, d);
    w1 := StepU32(w1, v.maximumFrameSize, 24, d);
  }

  lemma StepFlac(w: BitSeq, v: FlacConfig, d: BitSeq) returns (w1: BitSeq)
    requires |w| % 8 == 0 && WFlac(w, v).Ok? && WFlac(w, v).value <= d
    ensures w1 == WFlac(w, v).value && w <= w1 && |w1| == |w| + 304 && RFlac(d, |w|) == Ok((v, |w1|))
  {
    hide WU, RU, RU8, RU32, WFlacSizes, RFlacSizes, RSpan, WBytes, Pow2;
    w1 := WFlacSizes(w, v).value;
    assert w1 <= d;
    w1 := StepFlacSizes(w, v, d);
    w1 := StepU32(w1, v.sampleRate, 20, d);
    w1 := StepU8(w1, v.numberOfChannels, 3, d);
    w1 := StepU8(w1, v.bitsPerSample, 5, d);
    w1 := StepU(w1, v.totalSamples, 36, d);
    w1 := StepBytes(w1, v.md5, d);
  }

  predicate ByteIs(d: BitSeq, p: nat, x: u8) {
    RU8(d, p, 8) == Ok((x, p + 8))
  }

  lemma StepAacHead(w: BitSeq, v: AacConfig, d: BitSeq) returns (w1: BitSeq)
    requires WAacHead(w, v).Ok? && WAacHead(w, v).value <= d
    ensures w1 == WAacHead(w, v).value && w <= w1 && |w1| == |w| + 120
    ensures RAacHead(d, |w|) == Ok((v.(audioObjectType := 0, samplingFrequencyIndex := 0, channelConfiguration := 0,
                                       frameLengthFlag := false, dependsOnCoreCoder := false, extensionFlag := false),
                                    |w1|))
    ensures ByteIs(d, |w|, 4) && ByteIs(d, |w| + 8, 17) && RBool(d, |w| + 31) == Ok((true, |w| + 32))
  {
    hide WU, RU8, RU32, WBool, RBool, BitsOf, Pow2;
    w1 := StepByte(w, 4, d);
    w1 := StepByte(w1, 17, d);
    w1 := StepU8(w1, v.objectTypeIndication, 8, d);
    w1 := StepU8(w1, v.streamType, 6, d);
    w1 := StepBool(w1, v.upstream, d);
    w1 := StepBool(w1, true, d);
    w1 := StepU32(w1, v.bufferSizeDb, 24, d);
    w1 := StepU32(w1, v.maxBitrate, 32, d);
    w1 := StepU32(w1, v.avgBitrate, 32, d);
  }

  lemma StepAac(w: BitSeq, v: AacConfig, d: BitSeq) returns (w1: BitSeq)
    requires WAac(w, v).Ok? && WAac(w, v).value <= d
    ensures w1 == WAac(w, v).value && w <= w1 && |w1| == |w| + 152 && RAac(d, |w|) == Ok((v, |w1|))
    ensures ByteIs(d, |w|, 4) && ByteIs(d, |w| + 8, 17) && RBool(d, |w| + 31) == Ok((true, |w| + 32))
    ensures ByteIs(d, |w| + 120, 5) && ByteIs(d, |w| + 128, 2)
  {
    hide WU, RU8, WBool, RBool, BitsOf, WAacHead, RAacHead;
    w1 := WAacHead(w, v).value;
    assert w1 <= d;
    w1 := StepAacHead(w, v, d);
    w1 := StepByte(w1, 5, d);
    w1 := StepByte(w1, 2, d);
    w1 := StepU8(w1, v.audioObjectType, 5, d);
    w1 := StepU8(w1, v.samplingFrequencyIndex, 4, d);
    w1 := StepU8(w1, v.channelConfiguration, 4, d);
    w1 := StepBool(w1, v.frameLengthFlag, d);
    w1 := StepBool(w1, v.dependsOnCoreCoder, d);
    w1 := StepBool(w1, v.extensionFlag, d);
  }

  /** The envelope test looks at five bytes of the descriptor. */
  lemma DescriptorBytes(d: BitSeq, p: nat, b: seq<u8>)
    requires p + 152 <= |d| && b == BytesAt(d, p, AAC_BYTES)
    ensures IsAacDescriptor(b) <==>
              && ByteIs(d, p, 4) && ByteIs(d, p + 8, 17) && RBool(d, p + 31) == Ok((true, p + 32))
              && ByteIs(d, p + 120, 5) && ByteIs(d, p + 128, 2)
  {
    hide Val;
    assert b[0] == ByteAt(d, p) && b[1] == ByteAt(d, p + 8);
    assert b[15] == ByteAt(d, p + 120) && b[16] == ByteAt(d, p + 128);
    assert b[3] == ByteAt(d, p + 24);
    LastBit(d[p + 24..p + 32]);
  }

  lemma LastBit(b: BitSeq)
    requires b != []
    ensures Val(b) % 2 == 1 <==> b[|b| - 1]
  {
    LowBit(Val(b[..|b| - 1]), b[|b| - 1]);
  }

  lemma LowBit(v: nat, bit: bool)
    ensures (2 * v + (if bit then 1 else 0)) % 2 == 1 <==> bit
  {
  }

  lemma CodecIdsDiffer()
    ensures LPCM != OPUS && LPCM != FLAC && LPCM != AAC && OPUS != FLAC && OPUS != AAC && FLAC != AAC
  {
    assert LPCM[0] != OPUS[0] && LPCM[0] != FLAC[0] && LPCM[0] != AAC[0];
    assert OPUS[0] != FLAC[0] && OPUS[0] != AAC[0] && FLAC[0] != AAC[0];
  }

  /** The typed form belongs to the codec id; a raw form is one the reader would not type. */
  predicate Typed(codecId: CodecId, v: DecoderConfig) {
    match v
    case Lpcm(lpcm) => codecId == LPCM && lpcm.flags.Canonical()
    case Flac(_) => codecId == FLAC
    case Opus(_) => codecId == OPUS
    case AacLc(_) => codecId == AAC
    case RawConfig(id, bytes) =>
      && id == codecId
      && !(codecId == LPCM && |bytes| >= LPCM_BYTES) && !(codecId == FLAC && |bytes| >= FLAC_BYTES)
      && !(codecId == OPUS && |bytes| >= OPUS_BYTES)
      && !(codecId == AAC && |bytes| >= AAC_BYTES && IsAacDescriptor(bytes[..AAC_BYTES]))
  }

  lemma StepDecoderConfig(w: BitSeq, codecId: CodecId, v: DecoderConfig, d: BitSeq) returns (w1: BitSeq)
    requires |w| % 8 == 0 && Typed(codecId, v) && WDecoderConfig(w, v).Ok? && WDecoderConfig(w, v).value <= d
    requires v.RawConfig? ==> WDecoderConfig(w, v).value == d
    ensures w1 == WDecoderConfig(w, v).value && |w1| % 8 == 0 && w <= w1
    ensures RDecoderConfig(d, |w|, codecId) == Ok((v, |w1|))
  {
    hide WLpcm, RLpcm, WFlac, RFlac, WOpus, ROpus, WAac, RAac, WBytes, RRest, IsAacDescriptor, Remaining, ByteIs, RBool;
    CodecIdsDiffer();
    w1 := WDecoderConfig(w, v).value;
    RemainingAtLeast(w, w1, d);
    match v
    case Lpcm(lpcm) => var _ := StepLpcm(w, lpcm, d);
    case Flac(flac) => var _ := StepFlac(w, flac, d);
    case Opus(opus) => var _ := StepOpus(w, opus, d);
    case AacLc(aac) =>
      var _ := StepAac(w, aac, d);
      DescriptorAhead(d, |w|);
    case RawConfig(_, bytes) => var _ := StepRest(w, bytes);
  }

  lemma RemainingAtLeast(w: BitSeq, w1: BitSeq, d: BitSeq)
    requires |w1| <= |d|
    ensures Remaining(d, |w|) >= (|w1| - |w|) / 8
    ensures |w1| == |d| && |w| <= |w1| ==> Remaining(d, |w|) == (|w1| - |w|) / 8
  {
  }

  /** The bytes left begin with the nineteen that the envelope test looks at. */
  lemma DescriptorAhead(d: BitSeq, p: nat)
    requires p % 8 == 0 && p + 152 <= |d|
    ensures RRest(d, p).Ok? && |RRest(d, p).value.0| == Remaining(d, p) >= AAC_BYTES
    ensures IsAacDescriptor(RRest(d, p).value.0[..AAC_BYTES]) <==>
              && ByteIs(d, p, 4) && ByteIs(d, p + 8, 17) && RBool(d, p + 31) == Ok((true, p + 32))
              && ByteIs(d, p + 120, 5) && ByteIs(d, p + 128, 2)
  {
    hide IsAacDescriptor, ByteIs, RBool, ByteAt;
    var rest := RRest(d, p).value.0;
    assert rest[..AAC_BYTES] == BytesAt(d, p, AAC_BYTES);
    DescriptorBytes(d, p, BytesAt(d, p, AAC_BYTES));
  }

  /** Write then read; a raw config must be the last thing in the payload. */
  lemma StepCodecBody(w: BitSeq, v: CodecConfig, d: BitSeq) returns (w1: BitSeq)
    requires v.trailing == [] && Typed(v.codecId, v.decoderConfig)
    requires |w| % 8 == 0 && WCodecBody(w, v).Ok? && WCodecBody(w, v).value <= d
    requires v.decoderConfig.RawConfig? ==> WCodecBody(w, v).value == d
    ensures w1 == WCodecBody(w, v).value && |w1| % 8 == 0 && w <= w1
    ensures RCodecBody(d, |w|) == Ok((v, |w1|))
  {
    hide WLeb, RLeb, WBytes, RSpan, WI16, RI16, WDecoderConfig, RDecoderConfig, Typed;
    var a := WLeb(w, v.codecConfigId);
    assert |a| % 8 == 0;
    var b := WBytes(a, v.codecId);
    var c := WLeb(b, v.numSamplesPerFrame);
    assert |c| % 8 == 0;
    var e := WI16(c, v.audioRollDistance);
    w1 := StepDecoderConfig(e, v.codecId, v.decoderConfig, d);
    var _ := StepLeb(w, v.codecConfigId, d);
    var _ := StepBytes(a, v.codecId, d);
    var _ := StepLeb(b, v.numSamplesPerFrame, d);
    var _ := StepI16(c, v.audioRollDistance, d);
  }

  // Read, then write.

  lemma AgainLpcm(d: BitSeq, p0: nat, p: nat, w0: BitSeq, w: BitSeq) returns (w1: BitSeq)
    requires Canon(d, p0, p, w0, w) && RLpcm(d, p).Ok?
    ensures var (v, q) := RLpcm(d, p).value;
            && WLpcm(w, v) == Ok(w1) && Canon(d, p0, q, w0, w1) && q == p + 48 && v.flags.Canonical()
            && |w1| == |w| + 48
  {
    hide WU, RU8, RU32, Canon;
    w1 := AgainU8(d, p0, p, 8, w0, w);
    w1 := AgainU8(d, p0, p + 8, 8, w0, w1);
    w1 := AgainU32(d, p0, p + 16, 32, w0, w1);
  }

  lemma AgainOpus(d: BitSeq, p0: nat, p: nat, w0: BitSeq, w: BitSeq) returns (w1: BitSeq)
    requires Canon(d, p0, p, w0, w) && ROpus(d, p).Ok?
    ensures var (v, q) := ROpus(d, p).value;
            WOpus(w, v) == Ok(w1) && Canon(d, p0, q, w0, w1) && q == p + 88 && |w1| == |w| + 88
  {
    hide WU, RU8, RU16, RU32, WI16, RI16, Canon;
    w1 := AgainU8(d, p0, p, 8, w0, w);
    w1 := AgainU8(d, p0, p + 8, 8, w0, w1);
    w1 := AgainU16(d, p0, p + 16, w0, w1);
    w1 := AgainU32(d, p0, p + 32, 32, w0, w1);
    w1 := AgainI16(d, p0, p + 64, w0, w1);
    w1 := AgainU8(d, p0, p + 80, 8, w0, w1);
  }

  lemma AgainFlacSizes(d: BitSeq, p0: nat, p: nat, w0: BitSeq, w: BitSeq) returns (w1: BitSeq)
    requires Canon(d, p0, p, w0, w) && RFlacSizes(d, p).Ok?
    ensures var (v, q) := RFlacSizes(d, p).value;
            WFlacSizes(w, v) == Ok(w1) && Canon(d, p0, q, w0, w1) && q == p + 112 && |w1| == |w| + 112
  {
    hide WU, RU8, RU16, RU32, WBool, RBool, Canon;
    w1 := AgainBool(d, p0, p, w0, w);
    w1 := AgainU8(d, p0, p + 1, 7, w0, w1);
    w1 := AgainU32(d, p0, p + 8, 24, w0, w1);
    w1 := AgainU16(d, p0, p + 32, w0, w1);
    w1 := AgainU16(d, p0, p + 48, w0, w1);
    w1 := AgainU32(d, p0, p + 64, 24, w0, w1);
    w1 := AgainU32(d, p0, p + 88, 24, w0, w1);
  }

  lemma AgainFlac(d: BitSeq, p0: nat, p: nat, w0: BitSeq, w: BitSeq) returns (w1: BitSeq)
    requires Canon(d, p0, p, w0, w) && RFlac(d, p).Ok?
    ensures var (v, q) := RFlac(d, p).value;
            WFlac(w, v) == Ok(w1) && Canon(d, p0, q, w0, w1) && q == p + 304 && |w1| == |w| + 304
  {
    hide WU, RU, RU8, RU32, RSpan, WBytes, Pow2, Canon, RFlacSizes;
    var sizes := RFlacSizes(d, p).value.0;
    w1 := AgainFlacSizes(d, p0, p, w0, w);
    assert WFlacSizes(w, RFlac(d, p).value.0) == WFlacSizes(w, sizes);
    w1 := AgainU32(d, p0, p + 112, 20, w0, w1);
    w1 := AgainU8(d, p0, p + 132, 3, w0, w1);
    w1 := AgainU8(d, p0, p + 135, 5, w0, w1);
    w1 := AgainU(d, p0, p + 140, 36, w0, w1);
    w1 := AgainBytes(d, p0, p + 176, 16, w0, w1);
  }

  /** A byte whose value is known is written again as a constant. */
  lemma AgainByte(d: BitSeq, p0: nat, p: nat, x: u8, w0: BitSeq, w: BitSeq) returns (w1: BitSeq)
    requires Canon(d, p0, p, w0, w) && ByteIs(d, p, x)
    ensures w1 == w + BitsOf(x, 8) && Canon(d, p0, p + 8, w0, w1)
  {
    hide Canon, BitsOf;
    ByteShape(d, p);
    w1 := w + BitsOf(x, 8);
    AppendCanon(d, p0, p, p + 8, w0, w, BitsOf(x, 8));
  }

  lemma AgainAacHead(d: BitSeq, p0: nat, p: nat, w0: BitSeq, w: BitSeq) returns (w1: BitSeq)
    requires Canon(d, p0, p, w0, w) && RAacHead(d, p).Ok?
    requires ByteIs(d, p, 4) && ByteIs(d, p + 8, 17) && RBool(d, p + 31) == Ok((true, p + 32))
    ensures var (v, q) := RAacHead(d, p).value;
            WAacHead(w, v) == Ok(w1) && Canon(d, p0, q, w0, w1) && q == p + 120 && |w1| == |w| + 120
  {
    hide WU, RU8, RU32, WBool, RBool, BitsOf, Canon;
    w1 := AgainByte(d, p0, p, 4, w0, w);
    w1 := AgainByte(d, p0, p + 8, 17, w0, w1);
    w1 := AgainU8(d, p0, p + 16, 8, w0, w1);
    w1 := AgainU8(d, p0, p + 24, 6, w0, w1);
    w1 := AgainBool(d, p0, p + 30, w0, w1);
    w1 := AgainBool(d, p0, p + 31, w0, w1);
    w1 := AgainU32(d, p0, p + 32, 24, w0, w1);
    w1 := AgainU32(d, p0, p + 56, 32, w0, w1);
    w1 := AgainU32(d, p0, p + 88, 32, w0, w1);
  }

  lemma AgainAac(d: BitSeq, p0: nat, p: nat, w0: BitSeq, w: BitSeq) returns (w1: BitSeq)
    requires Canon(d, p0, p, w0, w) && RAac(d, p).Ok?
    requires ByteIs(d, p, 4) && ByteIs(d, p + 8, 17) && RBool(d, p + 31) == Ok((true, p + 32))
    requires ByteIs(d, p + 120, 5) && ByteIs(d, p + 128, 2)
    ensures var (v, q) := RAac(d, p).value;
            WAac(w, v) == Ok(w1) && Canon(d, p0, q, w0, w1) && q == p + 152 && |w1| == |w| + 152
  {
    hide WU, RU8, WBool, RBool, BitsOf, RAacHead, Canon;
    var head := RAacHead(d, p).value.0;
    w1 := AgainAacHead(d, p0, p, w0, w);
    assert WAacHead(w, RAac(d, p).value.0) == WAacHead(w, head);
    w1 := AgainByte(d, p0, p + 120, 5, w0, w1);
    w1 := AgainByte(d, p0, p + 128, 2, w0, w1);
    w1 := AgainU8(d, p0, p + 136, 5, w0, w1);
    w1 := AgainU8(d, p0, p + 141, 4, w0, w1);
    w1 := AgainU8(d, p0, p + 145, 4, w0, w1);
    w1 := AgainBool(d, p0, p + 149, w0, w1);
    w1 := AgainBool(d, p0, p + 150, w0, w1);
    w1 := AgainBool(d, p0, p + 151, w0, w1);
  }

  lemma AgainDecoderConfig(d: BitSeq, p0: nat, p: nat, codecId: CodecId, w0: BitSeq, w: BitSeq) returns (w1: BitSeq)
    requires Canon(d, p0, p, w0, w) && p % 8 == 0 && |d| % 8 == 0 && RDecoderConfig(d, p, codecId).Ok?
    ensures var (v, q) := RDecoderConfig(d, p, codecId).value;
            && WDecoderConfig(w, v) == Ok(w1) && Canon(d, p0, q, w0, w1) && q % 8 == 0
            && Typed(codecId, v) && (v.RawConfig? ==> q == |d|) && |w1| - |w| == q - p
  {
    hide WLpcm, RLpcm, WFlac, RFlac, WOpus, ROpus, WAac, RAac, WBytes, RU8, RBool, Canon, IsAacDescriptor, ByteIs;
    CodecIdsDiffer();
    var v := RDecoderConfig(d, p, codecId).value.0;
    CanonBound(d, p0, p, w0, w);
    match v
    case Lpcm(_) => w1 := AgainLpcm(d, p0, p, w0, w);
    case Flac(_) => w1 := AgainFlac(d, p0, p, w0, w);
    case Opus(_) => w1 := AgainOpus(d, p0, p, w0, w);
    case AacLc(_) =>
      DescriptorAhead(d, p);
      w1 := AgainAac(d, p0, p, w0, w);
    case RawConfig(_, _) => w1 := AgainBytes(d, p0, p, Remaining(d, p), w0, w);
  }

  lemma CanonBound(d: BitSeq, p0: nat, p: nat, w0: BitSeq, w: BitSeq)
    requires Canon(d, p0, p, w0, w)
    ensures p <= |d|
  {
  }

  /** Read then write: what is read is typed for its codec id and written again canonically. */
  lemma AgainCodecBody(d: BitSeq, p0: nat, p: nat, w0: BitSeq, w: BitSeq) returns (w1: BitSeq)
    requires Canon(d, p0, p, w0, w) && p % 8 == 0 && |d| % 8 == 0 && RCodecBody(d, p).Ok?
    ensures var (v, q) := RCodecBody(d, p).value;
            && WCodecBody(w, v) == Ok(w1) && Canon(d, p0, q, w0, w1) && q % 8 == 0
            && v.trailing == [] && Typed(v.codecId, v.decoderConfig) && (v.decoderConfig.RawConfig? ==> q == |d|)
            && Tight(q - p, |w1| - |w|, CodecMinimal(d, p))
  {
    hide WLeb, RLeb, LebMinimal, WBytes, RSpan, WI16, RI16, WDecoderConfig, RDecoderConfig, Typed, Canon;
    w1 := AgainLeb(d, p0, p, w0, w);
    var a := RLeb(d, p).value.1;
    w1 := AgainBytes(d, p0, a, 4, w0, w1);
    w1 := AgainLeb(d, p0, a + 32, w0, w1);
    var b := RLeb(d, a + 32).value.1;
    assert b % 8 == 0;
    w1 := AgainI16(d, p0, b, w0, w1);
    w1 := AgainDecoderConfig(d, p0, b + 16, RSpan(d, a, 4).value.0, w0, w1);
  }
}
