/** The bit writers write the format: each of them, field by field, gives the bytes that `Formats` says. */
module FormatWriting {
  import opened Core
  import opened Bits
  import opened Leb128
  import opened Lists
  import opened Obus
  import opened ParamDefinitions
  import opened ParameterBlocks
  import opened SequenceHeaders
  import opened CodecConfigs
  import opened AudioElements
  import opened MixPresentations
  import opened AudioFrames
  import opened SequenceObus
  import opened Sequences
  import opened Governance
  import Packing
  import PayloadWriters
  import opened Formats

  // --------------------------------------------------------------- how bits make bytes

  lemma {:induction false} BitsJoin(x: nat, a: nat, y: nat, b: nat)
    requires y < Pow2(b)
    ensures BitsOf(x * Pow2(b) + y, a + b) == BitsOf(x, a) + BitsOf(y, b)
    decreases b
  {
    if b == 0 {
      assert BitsOf(x, a) + [] == BitsOf(x, a);
    } else {
      var v := x * Pow2(b) + y;
      assert x * Pow2(b) == 2 * (x * Pow2(b - 1));
      assert v / 2 == x * Pow2(b - 1) + y / 2 && v % 2 == y % 2;
      BitsJoin(x, a, y / 2, b - 1);
      assert BitsOf(x, a) + BitsOf(y / 2, b - 1) + [y % 2 == 1] == BitsOf(x, a) + (BitsOf(y / 2, b - 1) + [y % 2 == 1]);
    }
  }

  lemma OneByte(v: u8)
    ensures BytesBits([v]) == BitsOf(v, 8)
  {
    hide BitsOf;
    assert [v][..0] == [] && [] + BitsOf(v, 8) == BitsOf(v, 8);
  }

  lemma {:induction false} BigBits(v: nat, n: nat)
    ensures BytesBits(Big(v, n)) == BitsOf(v, 8 * n)
  {
    hide BitsOf, BytesBits;
    if n == 0 {
      assert BytesBits([]) == [] && BitsOf(v, 0) == [] by { NoBits(v); }
    } else {
      BigBits(v / 256, n - 1);
      OneByte(v % 256);
      BytesBitsConcat(Big(v / 256, n - 1), [v % 256]);
      assert Pow2(8) == 256 by { PowersOfTwo(); }
      BitsJoin(v / 256, 8 * (n - 1), v % 256, 8);
    }
  }

  lemma NoBits(v: nat)
    ensures BytesBits([]) == [] && BitsOf(v, 0) == []
  {
  }

  /** Bytes after bytes. */
  lemma Then(w: BitSeq, a: seq<u8>, b: seq<u8>)
    ensures WBytes(WBytes(w, a), b) == WBytes(w, a + b)
  {
    hide BytesBits;
    BytesBitsConcat(a, b);
    assert w + BytesBits(a) + BytesBits(b) == w + (BytesBits(a) + BytesBits(b));
  }

  lemma NoBytes(w: BitSeq)
    ensures WBytes(w, []) == w
  {
    assert BytesBits([]) == [] && w + [] == w;
  }

  lemma BigWritten(w: BitSeq, v: nat, n: nat)
    ensures n <= 8 && WU(w, v, 8 * n).Ok? ==> WU(w, v, 8 * n) == Ok(WBytes(w, Big(v, n)))
  {
    hide BitsOf, BytesBits, Pow2;
    BigBits(v, n);
  }

  lemma ByteWritten(w: BitSeq, v: u8)
    ensures WU(w, v, 8) == Ok(WBytes(w, [v])) && w + BitsOf(v, 8) == WBytes(w, [v])
  {
    hide BitsOf, BytesBits;
    PowersOfTwo();
    OneByte(v);
  }

  lemma TwosWritten(w: BitSeq, v: i16)
    ensures WI16(w, v) == WBytes(w, Twos(v))
  {
    hide BitsOf, BytesBits, Pow2, Big;
    PowersOfTwo();
    I16Fits(w, v);
    BigWritten(w, v % 0x1_0000, 2);
    assert v % 0x1_0000 == if v < 0 then v + 0x1_0000 else v;
  }

  lemma {:induction false} LebGroups(v: nat, n: nat)
    requires n >= 1 && v < Capacity(n) && (n > 1 ==> v >= Capacity(n - 1))
    ensures LebBits(v, n) == BytesBits(Leb(v))
  {
    hide BitsOf, BytesBits;
    if n == 1 {
      OneByte(v);
    } else {
      assert v >= 128 by { CapacityMonotone(1, n - 1); }
      LebGroups(v / 128, n - 1);
      OneByte(128 + v % 128);
      BytesBitsConcat([128 + v % 128], Leb(v / 128));
    }
  }

  lemma LebWritten(w: BitSeq, v: u32)
    ensures WLeb(w, v) == WBytes(w, Leb(v)) && |Leb(v)| == MinimalLen(v)
  {
    hide BytesBits, LebBits, Leb;
    assert v < Capacity(MinimalLen(v)) by { MinimalLenIsLeast(v, MinimalLen(v)); }
    assert MinimalLen(v) > 1 ==> v >= Capacity(MinimalLen(v) - 1) by { MinimalLenIsLeast(v, MinimalLen(v) - 1); }
    LebGroups(v, MinimalLen(v));
  }

  // ------------------------------------------------------------ descriptors, written

  /** What was written at `w` is these bytes. */
  ghost predicate Gives(r: Result<BitSeq>, w: BitSeq, bytes: seq<u8>) {
    r.Ok? ==> r.value == WBytes(w, bytes)
  }

  lemma HeaderWritten(w: BitSeq, v: IaSequenceHeader)
    ensures Gives(WHeaderBody(w, v), w, HeaderFormat(v))
  {
    hide WU, WBytes, Big;
    var a := Big(v.iaCode, 4);
    BigWritten(w, v.iaCode, 4);
    ByteWritten(WBytes(w, a), v.primaryProfile);
    Then(w, a, [v.primaryProfile]);
    ByteWritten(WBytes(w, a + [v.primaryProfile]), v.additionalProfile);
    Then(w, a + [v.primaryProfile], [v.additionalProfile]);
    assert a + [v.primaryProfile] + [v.additionalProfile] == HeaderFormat(v);
  }

  lemma LpcmWritten(w: BitSeq, v: LpcmConfig)
    ensures Gives(WLpcm(w, v), w, LpcmFormat(v))
  {
    hide WU, WBytes, Big;
    ByteWritten(w, v.flags.Value());
    ByteWritten(WBytes(w, [v.flags.Value()]), v.sampleSize);
    Then(w, [v.flags.Value()], [v.sampleSize]);
    var head := [v.flags.Value()] + [v.sampleSize];
    BigWritten(WBytes(w, head), v.sampleRate, 4);
    Then(w, head, Big(v.sampleRate, 4));
    assert head == [v.flags.Value(), v.sampleSize];
  }

  lemma OpusWritten(w: BitSeq, v: OpusConfig)
    ensures Gives(WOpus(w, v), w, OpusFormat(v))
  {
    hide WU, WBytes, WI16, Big, Twos;
    ByteWritten(w, v.version);
    ByteWritten(WBytes(w, [v.version]), v.outputChannelCount);
    Then(w, [v.version], [v.outputChannelCount]);
    var a := [v.version] + [v.outputChannelCount];
    BigWritten(WBytes(w, a), v.preSkip, 2);
    Then(w, a, Big(v.preSkip, 2));
    var b := a + Big(v.preSkip, 2);
    BigWritten(WBytes(w, b), v.inputSampleRate, 4);
    Then(w, b, Big(v.inputSampleRate, 4));
    var c := b + Big(v.inputSampleRate, 4);
    TwosWritten(WBytes(w, c), v.outputGain);
    Then(w, c, Twos(v.outputGain));
    ByteWritten(WBytes(w, c + Twos(v.outputGain)), v.mappingFamily);
    Then(w, c + Twos(v.outputGain), [v.mappingFamily]);
    assert a == [v.version, v.outputChannelCount];
  }

  /** Two fields side by side are one field. */
  lemma FieldsJoin(w: BitSeq, x: nat, a: nat, y: nat, b: nat)
    requires WU(w, x, a).Ok? && WU(WU(w, x, a).value, y, b).Ok? && a + b <= 64
    ensures WU(WU(w, x, a).value, y, b) == WU(w, x * Pow2(b) + y, a + b) && WU(w, x * Pow2(b) + y, a + b).Ok?
  {
    hide BitsOf;
    BitsJoin(x, a, y, b);
    PowAdds(a, b);
    Below(x, Pow2(a), y, Pow2(b));
    assert w + BitsOf(x, a) + BitsOf(y, b) == w + (BitsOf(x, a) + BitsOf(y, b));
  }

  lemma Below(x: nat, a: nat, y: nat, b: nat)
    requires x < a && y < b
    ensures 0 <= x * b + y < a * b
  {
    assert (a - x - 1) * b >= 0;
    assert a * b == x * b + b + (a - x - 1) * b;
  }

  lemma {:induction false} PowAdds(a: nat, b: nat)
    ensures Pow2(a + b) == Pow2(a) * Pow2(b)
  {
    if b > 0 {
      PowAdds(a, b - 1);
      assert Pow2(a) * Pow2(b) == 2 * (Pow2(a) * Pow2(b - 1));
    }
  }

  /** Two fields of one byte. */
  lemma TwoFields(w: BitSeq, x: nat, a: nat, y: nat, b: nat)
    requires a + b == 8 && WU(w, x, a).Ok? && WU(WU(w, x, a).value, y, b).Ok?
    ensures 0 <= x * Pow2(b) + y < 256
    ensures WU(WU(w, x, a).value, y, b) == Ok(WBytes(w, [x * Pow2(b) + y]))
  {
    hide BitsOf, Pow2, WBytes, BytesBits;
    FieldsJoin(w, x, a, y, b);
    PowersOfTwo();
    ByteWritten(w, x * Pow2(b) + y);
  }

  lemma BitWritten(w: BitSeq, x: bool)
    ensures WU(w, Bit(x), 1) == Ok(WBool(w, x))
  {
    assert Pow2(1) == 2;
    assert BitsOf(Bit(x), 1) == [x] by {
      assert BitsOf(Bit(x) / 2, 0) == [];
    }
  }

  lemma Widths()
    ensures Pow2(1) == 2 && Pow2(2) == 4 && Pow2(3) == 8 && Pow2(4) == 16 && Pow2(5) == 32 && Pow2(6) == 64
    ensures Pow2(7) == 128 && Pow2(36) == 0x10_0000_0000
  {
    PowersOfTwo();
    Pow36();
    assert Pow2(2) == 2 * Pow2(1);
  }

  /** The metadata block header and the block and frame sizes. */
  function FlacSizesFormat(v: FlacConfig): seq<u8> {
    Packed(128 * Bit(v.lastMetadataBlock) + v.metadataBlockType) + Big(v.metadataDataBlockLength, 3)
    + Big(v.minimumBlockSize, 2) + Big(v.maximumBlockSize, 2) + Big(v.minimumFrameSize, 3) + Big(v.maximumFrameSize, 3)
  }

  lemma FlacSizesWritten(w: BitSeq, v: FlacConfig)
    ensures Gives(WFlacSizes(w, v), w, FlacSizesFormat(v))
  {
    hide WU, WBytes, Big, Pow2, WBool;
    if WFlacSizes(w, v).Ok? {
      Widths();
      BitWritten(w, v.lastMetadataBlock);
      TwoFields(w, Bit(v.lastMetadataBlock), 1, v.metadataBlockType, 7);
      var a := Packed(128 * Bit(v.lastMetadataBlock) + v.metadataBlockType);
      var b := a + Big(v.metadataDataBlockLength, 3);
      var c := b + Big(v.minimumBlockSize, 2);
      var d := c + Big(v.maximumBlockSize, 2);
      var e := d + Big(v.minimumFrameSize, 3);
      BigWritten(WBytes(w, a), v.metadataDataBlockLength, 3);
      Then(w, a, Big(v.metadataDataBlockLength, 3));
      BigWritten(WBytes(w, b), v.minimumBlockSize, 2);
      Then(w, b, Big(v.minimumBlockSize, 2));
      BigWritten(WBytes(w, c), v.maximumBlockSize, 2);
      Then(w, c, Big(v.maximumBlockSize, 2));
      BigWritten(WBytes(w, d), v.minimumFrameSize, 3);
      Then(w, d, Big(v.minimumFrameSize, 3));
      BigWritten(WBytes(w, e), v.maximumFrameSize, 3);
      Then(w, e, Big(v.maximumFrameSize, 3));
    }
  }

  lemma FlacWritten(w: BitSeq, v: FlacConfig)
    ensures Gives(WFlac(w, v), w, FlacFormat(v))
  {
    hide WU, WBytes, Big, Pow2, WFlacSizes, Bit, Packed;
    FlacSizesWritten(w, v);
    if WFlac(w, v).Ok? {
      Widths();
      var sizes := FlacSizesFormat(v);
      var w0 := WBytes(w, sizes);
      FieldsJoin(w0, v.sampleRate, 20, v.numberOfChannels, 3);
      FieldsJoin(w0, v.sampleRate * 8 + v.numberOfChannels, 23, v.bitsPerSample, 5);
      FieldsJoin(w0, (v.sampleRate * 8 + v.numberOfChannels) * 32 + v.bitsPerSample, 28, v.totalSamples, 36);
      var packed := ((v.sampleRate * 8 + v.numberOfChannels) * 32 + v.bitsPerSample) * 0x10_0000_0000 + v.totalSamples;
      BigWritten(w0, packed, 8);
      Then(w, sizes, Big(packed, 8));
      Then(w, sizes + Big(packed, 8), v.md5);
    }
  }

  function AacHeadFormat(v: AacConfig): seq<u8> {
    [4, 17, v.objectTypeIndication] + Packed(4 * v.streamType + 2 * Bit(v.upstream) + 1)
    + Big(v.bufferSizeDb, 3) + Big(v.maxBitrate, 4) + Big(v.avgBitrate, 4)
  }

  lemma ThreeBytes(w: BitSeq, a: u8, b: u8, c: u8)
    ensures WU(w + BitsOf(a, 8) + BitsOf(b, 8), c, 8) == Ok(WBytes(w, [a, b, c]))
  {
    hide WU, WBytes, BitsOf;
    ByteWritten(w, a);
    ByteWritten(WBytes(w, [a]), b);
    Then(w, [a], [b]);
    ByteWritten(WBytes(w, [a] + [b]), c);
    Then(w, [a] + [b], [c]);
    assert [a] + [b] + [c] == [a, b, c];
  }

  lemma AacHeadWritten(w: BitSeq, v: AacConfig)
    ensures Gives(WAacHead(w, v), w, AacHeadFormat(v))
  {
    hide WU, WBytes, Big, WBool, BitsOf, Packed, Bit;
    if WAacHead(w, v).Ok? {
      ThreeBytes(w, 4, 17, v.objectTypeIndication);
      var a := [4, 17, v.objectTypeIndication];
      StreamByte(WBytes(w, a), v);
      var stream := Packed(4 * v.streamType + 2 * Bit(v.upstream) + 1);
      Then(w, a, stream);
      var b := a + stream;
      BigWritten(WBytes(w, b), v.bufferSizeDb, 3);
      Then(w, b, Big(v.bufferSizeDb, 3));
      var c := b + Big(v.bufferSizeDb, 3);
      BigWritten(WBytes(w, c), v.maxBitrate, 4);
      Then(w, c, Big(v.maxBitrate, 4));
      var d := c + Big(v.maxBitrate, 4);
      BigWritten(WBytes(w, d), v.avgBitrate, 4);
      Then(w, d, Big(v.avgBitrate, 4));
    }
  }

  /** Six bits of stream type, the upstream flag, and a one. */
  lemma StreamByte(w: BitSeq, v: AacConfig)
    requires WU(w, v.streamType, 6).Ok?
    ensures WBool(WBool(WU(w, v.streamType, 6).value, v.upstream), true) ==
            WBytes(w, Packed(4 * v.streamType + 2 * Bit(v.upstream) + 1))
  {
    hide WBytes, BitsOf, Pow2;
    Widths();
    var a := WU(w, v.streamType, 6).value;
    BitWritten(a, v.upstream);
    FieldsJoin(w, v.streamType, 6, Bit(v.upstream), 1);
    BitWritten(WBool(a, v.upstream), true);
    TwoFields(w, v.streamType * 2 + Bit(v.upstream), 7, 1, 1);
  }

  /** Object type, frequency index and channel configuration side by side. */
  function AacFields(v: AacConfig): nat {
    (v.audioObjectType * 16 + v.samplingFrequencyIndex) * 16 + v.channelConfiguration
  }

  lemma AacFieldsJoin(w: BitSeq, v: AacConfig)
    requires WU(w, v.audioObjectType, 5).Ok?
    requires WU(WU(w, v.audioObjectType, 5).value, v.samplingFrequencyIndex, 4).Ok?
    requires WU(WU(WU(w, v.audioObjectType, 5).value, v.samplingFrequencyIndex, 4).value, v.channelConfiguration, 4).Ok?
    ensures WU(WU(WU(w, v.audioObjectType, 5).value, v.samplingFrequencyIndex, 4).value, v.channelConfiguration, 4) ==
            WU(w, AacFields(v), 13)
  {
    hide WU, Pow2;
    Widths();
    FieldsJoin(w, v.audioObjectType, 5, v.samplingFrequencyIndex, 4);
    FieldsJoin(w, v.audioObjectType * 16 + v.samplingFrequencyIndex, 9, v.channelConfiguration, 4);
  }

  /** Three flags behind a field. */
  lemma FlagsJoin(w: BitSeq, x: nat, n: nat, a: bool, b: bool, c: bool)
    requires WU(w, x, n).Ok? && n <= 61
    ensures WU(w, x * 8 + 4 * Bit(a) + 2 * Bit(b) + Bit(c), n + 3) ==
            Ok(WBool(WBool(WBool(WU(w, x, n).value, a), b), c))
  {
    hide WU, WBool, Pow2, Bit;
    Widths();
    var w1 := WU(w, x, n).value;
    BitWritten(w1, a);
    BitWritten(WBool(w1, a), b);
    BitWritten(WBool(WBool(w1, a), b), c);
    FieldsJoin(w, x, n, Bit(a), 1);
    FieldsJoin(w, x * 2 + Bit(a), n + 1, Bit(b), 1);
    FieldsJoin(w, (x * 2 + Bit(a)) * 2 + Bit(b), n + 2, Bit(c), 1);
  }

  function AacTailFormat(v: AacConfig): seq<u8> {
    [5, 2] + Big(AacFields(v) * 8 + 4 * Bit(v.frameLengthFlag) + 2 * Bit(v.dependsOnCoreCoder)
                 + Bit(v.extensionFlag), 2)
  }

  lemma AacTailWritten(w: BitSeq, v: AacConfig)
    ensures Gives(WAacTail(w, v), w, AacTailFormat(v))
  {
    hide WU, WBytes, Big, Pow2, WBool, BitsOf, AacFields, Bit;
    if WAacTail(w, v).Ok? {
      ByteWritten(w, 5);
      ByteWritten(WBytes(w, [5]), 2);
      Then(w, [5], [2]);
      assert [5] + [2] == [5, 2];
      var w0 := WBytes(w, [5, 2]);
      AacFieldsJoin(w0, v);
      FlagsJoin(w0, AacFields(v), 13, v.frameLengthFlag, v.dependsOnCoreCoder, v.extensionFlag);
      var all := AacFields(v) * 8 + 4 * Bit(v.frameLengthFlag) + 2 * Bit(v.dependsOnCoreCoder) + Bit(v.extensionFlag);
      BigWritten(w0, all, 2);
      Then(w, [5, 2], Big(all, 2));
    }
  }

  lemma AacWritten(w: BitSeq, v: AacConfig)
    ensures Gives(WAac(w, v), w, AacFormat(v))
  {
    hide WAacHead, WAacTail, WBytes, Big, Bit, Packed;
    AacHeadWritten(w, v);
    if WAac(w, v).Ok? {
      AacTailWritten(WBytes(w, AacHeadFormat(v)), v);
      Then(w, AacHeadFormat(v), AacTailFormat(v));
      assert AacHeadFormat(v) + AacTailFormat(v) == AacFormat(v);
    }
  }

  lemma CodecWritten(w: BitSeq, v: CodecConfig)
    ensures Gives(WCodecBody(w, v), w, CodecFormat(v))
  {
    hide WLeb, WBytes, WI16, WLpcm, WFlac, WOpus, WAac, LpcmFormat, FlacFormat, OpusFormat, AacFormat, Leb, Twos;
    var a := Leb(v.codecConfigId);
    var b := a + v.codecId;
    var c := b + Leb(v.numSamplesPerFrame);
    var d := c + Twos(v.audioRollDistance);
    LebWritten(w, v.codecConfigId);
    Then(w, a, v.codecId);
    LebWritten(WBytes(w, b), v.numSamplesPerFrame);
    Then(w, b, Leb(v.numSamplesPerFrame));
    TwosWritten(WBytes(w, c), v.audioRollDistance);
    Then(w, c, Twos(v.audioRollDistance));
    match v.decoderConfig
    case Lpcm(x) => LpcmWritten(WBytes(w, d), x); Then(w, d, LpcmFormat(x));
    case Flac(x) => FlacWritten(WBytes(w, d), x); Then(w, d, FlacFormat(x));
    case Opus(x) => OpusWritten(WBytes(w, d), x); Then(w, d, OpusFormat(x));
    case AacLc(x) => AacWritten(WBytes(w, d), x); Then(w, d, AacFormat(x));
    case RawConfig(_, bytes) => Then(w, d, bytes);
  }

  // ------------------------------------------------------------------- lists, written

  /** An item is written as `f` says, wherever it is. */
  ghost predicate ItemGives<T>(wr: ItemWriter<T>, f: T -> seq<u8>, x: T) {
    forall w: BitSeq :: Gives(wr(w, x), w, f(x))
  }

  lemma {:induction false} ManyWritten<T>(w: BitSeq, xs: seq<T>, i: nat, wr: ItemWriter<T>, f: T -> seq<u8>)
    requires i <= |xs| && forall k | i <= k < |xs| :: ItemGives(wr, f, xs[k])
    ensures Gives(WMany(w, xs, i, wr), w, Each(f, xs[i..]))
    decreases |xs| - i
  {
    hide WBytes;
    if i == |xs| {
      NoBytes(w);
    } else {
      assert Gives(wr(w, xs[i]), w, f(xs[i]));
      if wr(w, xs[i]).Ok? {
        ManyWritten(WBytes(w, f(xs[i])), xs, i + 1, wr, f);
        Then(w, f(xs[i]), Each(f, xs[i + 1..]));
        assert xs[i..][1..] == xs[i + 1..];
      }
    }
  }

  lemma AllWrittenAs<T>(w: BitSeq, xs: seq<T>, wr: ItemWriter<T>, f: T -> seq<u8>)
    requires forall k | 0 <= k < |xs| :: ItemGives(wr, f, xs[k])
    ensures Gives(WMany(w, xs, 0, wr), w, Each(f, xs))
  {
    hide ItemGives, Gives, WMany;
    ManyWritten(w, xs, 0, wr, f);
    assert xs[0..] == xs;
  }

  lemma CountedWritten<T>(w: BitSeq, xs: seq<T>, wr: ItemWriter<T>, f: T -> seq<u8>)
    requires forall k | 0 <= k < |xs| :: ItemGives(wr, f, xs[k])
    ensures Gives(WCounted(w, xs, wr), w, Counted(f, xs))
  {
    hide ItemGives, WMany, WLeb, WBytes, Leb;
    if |xs| < U32_LIMIT {
      LebWritten(w, |xs|);
      AllWrittenAs(WLeb(w, |xs|), xs, wr, f);
      Then(w, Leb(|xs|), Each(f, xs));
    }
  }

  lemma SizedWritten(w: BitSeq, bytes: seq<u8>)
    ensures Gives(WSized(w, bytes), w, Sized(bytes))
  {
    hide WLeb, WBytes, Leb;
    if |bytes| < U32_LIMIT {
      LebWritten(w, |bytes|);
      Then(w, Leb(|bytes|), bytes);
    }
  }

  lemma LebItem(x: u32)
    ensures ItemGives(WLebItem, (d: u32) => Leb(d), x)
  {
    hide WLeb, WBytes, Leb;
    var f := (d: u32) => Leb(d);
    forall w: BitSeq ensures Gives(WLebItem(w, x), w, f(x)) {
      LebWritten(w, x);
    }
  }

  lemma LebsWritten(w: BitSeq, xs: seq<u32>)
    ensures Gives(WCounted(w, xs, WLebItem), w, Counted((d: u32) => Leb(d), xs))
  {
    hide ItemGives, WCounted, Counted, Gives;
    forall k | 0 <= k < |xs| ensures ItemGives(WLebItem, (d: u32) => Leb(d), xs[k]) {
      LebItem(xs[k]);
    }
    CountedWritten(w, xs, WLebItem, (d: u32) => Leb(d));
  }

  // ------------------------------------------------------------- definitions, written

  lemma DurationsWritten(w: BitSeq, v: DurationFields)
    ensures Gives(WDurationFields(w, v), w, DurationsFormat(v))
  {
    hide WLeb, WBytes, Leb, WCounted, Counted;
    var a := Leb(v.duration);
    var b := a + Leb(v.constantSubblockDuration);
    LebWritten(w, v.duration);
    LebWritten(WBytes(w, a), v.constantSubblockDuration);
    Then(w, a, Leb(v.constantSubblockDuration));
    if v.constantSubblockDuration == 0 {
      LebsWritten(WBytes(w, b), v.subblockDurations);
      Then(w, b, Counted((d: u32) => Leb(d), v.subblockDurations));
    } else {
      assert b + [] == b;
    }
  }

  lemma DefinitionWritten(w: BitSeq, v: ParamDefinition)
    ensures Gives(WParamDefinition(w, v), w, DefinitionFormat(v))
  {
    hide WLeb, WBytes, Leb, WU, WBool, WDurationFields, DurationsFormat, Pow2, Bit;
    if WParamDefinition(w, v).Ok? {
      Widths();
      var a := Leb(v.parameterId);
      var b := a + Leb(v.parameterRate);
      LebWritten(w, v.parameterId);
      LebWritten(WBytes(w, a), v.parameterRate);
      Then(w, a, Leb(v.parameterRate));
      var w0 := WBytes(w, b);
      BitWritten(w0, v.Mode());
      TwoFields(w0, Bit(v.Mode()), 1, v.reserved, 7);
      var flags := Packed(128 * Bit(v.durationFields.None?) + v.reserved);
      Then(w, b, flags);
      if v.durationFields.Some? {
        DurationsWritten(WBytes(w, b + flags), v.durationFields.value);
        Then(w, b + flags, DurationsFormat(v.durationFields.value));
      } else {
        assert b + flags + [] == b + flags;
      }
    }
  }

  // ---------------------------------------------------------------- elements, written

  lemma OutputGainWritten(w: BitSeq, v: OutputGain)
    ensures Gives(WOutputGain(w, v), w, OutputGainFormat(v))
  {
    hide WBytes, WU, WI16, Pow2, Twos;
    if WOutputGain(w, v).Ok? {
      Widths();
      TwoFields(w, v.flags, 6, v.reserved, 2);
      TwosWritten(WBytes(w, Packed(4 * v.flags + v.reserved)), v.gain);
      Then(w, Packed(4 * v.flags + v.reserved), Twos(v.gain));
    }
  }

  lemma LayerFlagsWritten(w: BitSeq, v: ChannelLayer, coded: BitSeq, flagged: BitSeq)
    requires WU(w, v.layout.Value(), 4) == Ok(coded)
    requires WU(WBool(WBool(coded, v.outputGain.Some?), v.reconGainIsPresent), v.reserved, 2) == Ok(flagged)
    ensures flagged == WBytes(w, LayerFlags(v))
  {
    hide WBytes, WU, WBool, Pow2, Bit;
    Widths();
    var code, gated, gains := v.layout.Value(), Bit(v.outputGain.Some?), Bit(v.reconGainIsPresent);
    BitWritten(coded, v.outputGain.Some?);
    FieldsJoin(w, code, 4, gated, 1);
    BitWritten(WBool(coded, v.outputGain.Some?), v.reconGainIsPresent);
    FieldsJoin(w, code * 2 + gated, 5, gains, 1);
    TwoFields(w, (code * 2 + gated) * 2 + gains, 6, v.reserved, 2);
  }

  lemma LayerHeadWritten(w: BitSeq, v: ChannelLayer)
    ensures Gives(WLayerHead(w, v), w, LayerFlags(v) + [v.substreamCount, v.coupledSubstreamCount])
  {
    hide WBytes, WU, WBool, Pow2, LayerFlags;
    if WLayerHead(w, v).Ok? {
      var coded := WU(w, v.layout.Value(), 4).value;
      var flagged := WU(WBool(WBool(coded, v.outputGain.Some?), v.reconGainIsPresent), v.reserved, 2).value;
      LayerFlagsWritten(w, v, coded, flagged);
      var b := LayerFlags(v);
      ByteWritten(WBytes(w, b), v.substreamCount);
      Then(w, b, [v.substreamCount]);
      ByteWritten(WBytes(w, b + [v.substreamCount]), v.coupledSubstreamCount);
      Then(w, b + [v.substreamCount], [v.coupledSubstreamCount]);
      assert b + [v.substreamCount] + [v.coupledSubstreamCount] == b + [v.substreamCount, v.coupledSubstreamCount];
    }
  }

  lemma LayerWritten(w: BitSeq, v: ChannelLayer)
    ensures Gives(WChannelLayer(w, v), w, LayerFormat(v))
  {
    hide WBytes, WU, WLayerHead, WOutputGain, OutputGainFormat, LayerFlags;
    LayerHeadWritten(w, v);
    if WChannelLayer(w, v).Ok? {
      var a := LayerFlags(v) + [v.substreamCount, v.coupledSubstreamCount];
      var b := a + if v.outputGain.Some? then OutputGainFormat(v.outputGain.value) else [];
      if v.outputGain.Some? {
        OutputGainWritten(WBytes(w, a), v.outputGain.value);
        Then(w, a, OutputGainFormat(v.outputGain.value));
      } else {
        assert b == a;
      }
      if v.layout.Expanded? {
        ByteWritten(WBytes(w, b), v.layout.expanded.Value());
        Then(w, b, [v.layout.expanded.Value()]);
      } else {
        assert b + [] == b;
      }
    }
  }

  lemma LayersWritten(w: BitSeq, layers: seq<ChannelLayer>)
    ensures Gives(WMany(w, layers, 0, WChannelLayer), w, Each((layer: ChannelLayer) => LayerFormat(layer), layers))
  {
    hide WChannelLayer, LayerFormat, WMany, Each;
    var f := (layer: ChannelLayer) => LayerFormat(layer);
    forall k | 0 <= k < |layers| ensures ItemGives(WChannelLayer, f, layers[k]) {
      forall w: BitSeq ensures Gives(WChannelLayer(w, layers[k]), w, f(layers[k])) {
        LayerWritten(w, layers[k]);
      }
    }
    AllWrittenAs(w, layers, WChannelLayer, f);
  }

  lemma MatrixWritten(w: BitSeq, matrix: seq<i16>)
    ensures Gives(WMany(w, matrix, 0, WEntry), w, Each((entry: i16) => Twos(entry), matrix))
  {
    hide Twos, WMany, Each, WI16, WBytes;
    var f := (entry: i16) => Twos(entry);
    forall k | 0 <= k < |matrix| ensures ItemGives(WEntry, f, matrix[k]) {
      forall w: BitSeq ensures Gives(WEntry(w, matrix[k]), w, f(matrix[k])) {
        TwosWritten(w, matrix[k]);
      }
    }
    AllWrittenAs(w, matrix, WEntry, f);
  }

  lemma SmallLeb(v: nat)
    requires v < 128
    ensures Leb(v) == [v]
  {
  }

  lemma AmbisonicsWritten(w: BitSeq, v: AmbisonicsConfig)
    ensures Gives(WAmbisonics(w, v), w, AmbisonicsFormat(v))
  {
    hide WBytes, WU, WLeb, WMany, Leb, MatrixLen, Each, Twos;
    match v
    case ReservedMode(mode) => LebWritten(w, mode);
    case MonoMode(channels, substreams, mapping) =>
      LebWritten(w, 0);
      SmallLeb(0);
      ByteWritten(WBytes(w, [0]), channels);
      Then(w, [0], [channels]);
      ByteWritten(WBytes(w, [0] + [channels]), substreams);
      Then(w, [0] + [channels], [substreams]);
      assert [0] + [channels] + [substreams] == [0, channels, substreams];
      Then(w, [0, channels, substreams], mapping);
    case ProjectionMode(channels, substreams, coupled, matrix) =>
      LebWritten(w, 1);
      SmallLeb(1);
      ByteWritten(WBytes(w, [1]), channels);
      Then(w, [1], [channels]);
      ByteWritten(WBytes(w, [1] + [channels]), substreams);
      Then(w, [1] + [channels], [substreams]);
      ByteWritten(WBytes(w, [1] + [channels] + [substreams]), coupled);
      Then(w, [1] + [channels] + [substreams], [coupled]);
      var head := [1, channels, substreams, coupled];
      assert [1] + [channels] + [substreams] + [coupled] == head;
      MatrixWritten(WBytes(w, head), matrix);
      Then(w, head, Each((entry: i16) => Twos(entry), matrix));
  }

  lemma DefaultsWritten(w: BitSeq, v: ElementParam)
    requires v.DemixingParam?
    ensures Gives(WDemixingDefaults(w, v), w,
                  Packed(32 * v.defaultDmixpMode + v.defaultReserved)
                  + Packed(16 * v.defaultW + v.defaultWReserved))
  {
    hide WBytes, WU, Pow2;
    if WDemixingDefaults(w, v).Ok? {
      Widths();
      TwoFields(w, v.defaultDmixpMode, 3, v.defaultReserved, 5);
      var a := Packed(32 * v.defaultDmixpMode + v.defaultReserved);
      TwoFields(WBytes(w, a), v.defaultW, 4, v.defaultWReserved, 4);
      Then(w, a, Packed(16 * v.defaultW + v.defaultWReserved));
    }
  }

  lemma ElementParamWritten(w: BitSeq, v: ElementParam)
    ensures Gives(WElementParam(w, v), w, ElementParamFormat(v))
  {
    hide WBytes, WDemixingDefaults, WLeb, WParamDefinition, DefinitionFormat, Leb, WSized, Sized, Packed;
    if WElementParam(w, v).Ok? {
      LebWritten(w, v.DefinitionType());
      match v
      case DemixingParam(definition, mode, reserved, weight, weightReserved) =>
        SmallLeb(1);
        DefinitionWritten(WBytes(w, [1]), definition);
        var a := [1] + DefinitionFormat(definition);
        Then(w, [1], DefinitionFormat(definition));
        DefaultsWritten(WBytes(w, a), v);
        var defaults := Packed(32 * mode + reserved) + Packed(16 * weight + weightReserved);
        Then(w, a, defaults);
        assert a + defaults == ElementParamFormat(v);
      case ReconGainParam(definition) =>
        SmallLeb(2);
        DefinitionWritten(WBytes(w, [2]), definition);
        Then(w, [2], DefinitionFormat(definition));
      case ExtensionParam(t, bytes) =>
        SizedWritten(WBytes(w, Leb(t)), bytes);
        Then(w, Leb(t), Sized(bytes));
    }
  }

  lemma ElementParamsWritten(w: BitSeq, params: seq<ElementParam>)
    ensures Gives(WCounted(w, params, WElementParam), w, Counted((p: ElementParam) => ElementParamFormat(p), params))
  {
    hide WElementParam, ElementParamFormat, WCounted, Counted;
    var f := (p: ElementParam) => ElementParamFormat(p);
    forall k | 0 <= k < |params| ensures ItemGives(WElementParam, f, params[k]) {
      forall w: BitSeq ensures Gives(WElementParam(w, params[k]), w, f(params[k])) {
        ElementParamWritten(w, params[k]);
      }
    }
    CountedWritten(w, params, WElementParam, f);
  }

  lemma ElementTypeWritten(w: BitSeq, v: ElementType)
    ensures Gives(WElementType(w, v), w, ElementTypeFormat(v))
  {
    hide WBytes, WU, WMany, Each, WAmbisonics, AmbisonicsFormat, Pow2;
    if WElementType(w, v).Ok? {
      match v
      case ChannelBased(reserved, layers) =>
        Widths();
        TwoFields(w, |layers|, 3, reserved, 5);
        var head := Packed(32 * |layers| + reserved);
        LayersWritten(WBytes(w, head), layers);
        Then(w, head, Each((layer: ChannelLayer) => LayerFormat(layer), layers));
      case SceneBased(config) => AmbisonicsWritten(w, config);
      case ReservedType(_, raw) =>
    }
  }

  lemma ElementWritten(w: BitSeq, v: AudioElement)
    ensures Gives(WElementBody(w, v), w, ElementFormat(v))
  {
    hide WBytes, WU, WLeb, WCounted, Counted, WElementType, ElementTypeFormat, WElementParam, Leb, Pow2;
    if WElementBody(w, v).Ok? {
      Widths();
      var a := Leb(v.audioElementId);
      LebWritten(w, v.audioElementId);
      TwoFields(WBytes(w, a), v.elementType.Value(), 3, v.reserved, 5);
      var typed := Packed(32 * TypeCode(v.elementType) + v.reserved);
      Then(w, a, typed);
      var b := a + typed;
      LebWritten(WBytes(w, b), v.codecConfigId);
      Then(w, b, Leb(v.codecConfigId));
      var c := b + Leb(v.codecConfigId);
      LebsWritten(WBytes(w, c), v.audioSubstreamIds);
      var substreams := Counted((d: u32) => Leb(d), v.audioSubstreamIds);
      Then(w, c, substreams);
      var e := c + substreams;
      ElementParamsWritten(WBytes(w, e), v.params);
      var params := Counted((p: ElementParam) => ElementParamFormat(p), v.params);
      Then(w, e, params);
      ElementTypeWritten(WBytes(w, e + params), v.elementType);
      Then(w, e + params, ElementTypeFormat(v.elementType));
    }
  }

  // ----------------------------------------------------------- presentations, written

  lemma TextWritten(w: BitSeq, text: seq<u8>)
    ensures Gives(WString(w, text), w, TextFormat(text))
  {
    hide WBytes, BitsOf;
    if WString(w, text).Ok? {
      ByteWritten(WBytes(w, text), 0);
      Then(w, text, [0]);
    }
  }

  lemma TextsWritten(w: BitSeq, texts: seq<seq<u8>>)
    ensures Gives(WMany(w, texts, 0, WString), w, Each((text: seq<u8>) => TextFormat(text), texts))
    ensures Gives(WCounted(w, texts, WString), w, Counted((text: seq<u8>) => TextFormat(text), texts))
  {
    hide WString, TextFormat, WMany, Each, WCounted, Counted;
    var f := (text: seq<u8>) => TextFormat(text);
    forall k | 0 <= k < |texts| ensures ItemGives(WString, f, texts[k]) {
      forall w: BitSeq ensures Gives(WString(w, texts[k]), w, f(texts[k])) {
        TextWritten(w, texts[k]);
      }
    }
    AllWrittenAs(w, texts, WString, f);
    CountedWritten(w, texts, WString, f);
  }

  lemma GainWritten(w: BitSeq, v: MixGainDefinition)
    ensures Gives(WMixGainDefinition(w, v), w, GainFormat(v))
  {
    hide WParamDefinition, DefinitionFormat, WI16, WBytes, Twos;
    DefinitionWritten(w, v.definition);
    if WParamDefinition(w, v.definition).Ok? {
      TwosWritten(WBytes(w, DefinitionFormat(v.definition)), v.defaultMixGain);
      Then(w, DefinitionFormat(v.definition), Twos(v.defaultMixGain));
    }
  }

  lemma RenderingWritten(w: BitSeq, v: RenderingConfig)
    ensures Gives(WRendering(w, v), w, RenderingFormat(v))
  {
    hide WU, WBytes, WSized, Sized, Pow2;
    if WRendering(w, v).Ok? {
      Widths();
      TwoFields(w, v.mode.Value(), 2, v.reserved, 6);
      var head := Packed(64 * v.mode.Value() + v.reserved);
      SizedWritten(WBytes(w, head), v.extension);
      Then(w, head, Sized(v.extension));
    }
  }

  lemma MemberWritten(w: BitSeq, v: SubMixElement)
    ensures Gives(WSubMixElement(w, v), w, MemberFormat(v))
  {
    hide WLeb, WBytes, Leb, WMany, Each, WRendering, RenderingFormat, WMixGainDefinition, GainFormat;
    if WSubMixElement(w, v).Ok? {
      var a := Leb(v.audioElementId);
      LebWritten(w, v.audioElementId);
      TextsWritten(WBytes(w, a), v.annotations);
      var texts := Each((text: seq<u8>) => TextFormat(text), v.annotations);
      Then(w, a, texts);
      RenderingWritten(WBytes(w, a + texts), v.rendering);
      Then(w, a + texts, RenderingFormat(v.rendering));
      var b := a + texts + RenderingFormat(v.rendering);
      GainWritten(WBytes(w, b), v.mixGain);
      Then(w, b, GainFormat(v.mixGain));
    }
  }

  lemma AnchorWritten(w: BitSeq, v: AnchorElement)
    ensures Gives(WAnchor(w, v), w, AnchorFormat(v))
  {
    hide WU, WBytes, Twos, WI16;
    ByteWritten(w, v.anchor);
    TwosWritten(WBytes(w, [v.anchor]), v.loudness);
    Then(w, [v.anchor], Twos(v.loudness));
  }

  lemma AnchorItems(w: BitSeq, anchors: seq<AnchorElement>)
    ensures Gives(WMany(w, anchors, 0, WAnchor), w, Each((a: AnchorElement) => AnchorFormat(a), anchors))
  {
    hide WMany, Each, WAnchor, AnchorFormat;
    var f := (a: AnchorElement) => AnchorFormat(a);
    forall k | 0 <= k < |anchors| ensures ItemGives(WAnchor, f, anchors[k]) {
      forall w: BitSeq ensures Gives(WAnchor(w, anchors[k]), w, f(anchors[k])) {
        AnchorWritten(w, anchors[k]);
      }
    }
    AllWrittenAs(w, anchors, WAnchor, f);
  }

  lemma AnchorsWritten(w: BitSeq, anchors: seq<AnchorElement>)
    ensures Gives(WAnchors(w, anchors), w, Packed(|anchors|) + Each((a: AnchorElement) => AnchorFormat(a), anchors))
  {
    hide WU, WMany, Each, WBytes, WAnchor, AnchorFormat, Packed;
    if |anchors| <= 255 {
      var count := Packed(|anchors|);
      CountWritten(w, |anchors|);
      AnchorItems(WBytes(w, count), anchors);
      Then(w, count, Each((a: AnchorElement) => AnchorFormat(a), anchors));
    }
  }

  lemma CountWritten(w: BitSeq, n: nat)
    requires n <= 255
    ensures WU(w, n, 8) == Ok(WBytes(w, Packed(n)))
  {
    hide WU, WBytes;
    ByteWritten(w, n);
  }

  lemma LoudnessHeadWritten(w: BitSeq, v: Loudness)
    requires ExtensionFits(v)
    ensures Gives(WLoudnessHead(w, v), w, LoudnessHeadFormat(v))
  {
    hide WU, WBytes, WI16, Twos, Packed;
    if WLoudnessHead(w, v).Ok? {
      var a := InfoFormat(v);
      ByteWritten(w, v.InfoType());
      assert a == [v.InfoType()] by { InfoIs(v); }
      TwosWritten(WBytes(w, a), v.integrated);
      Then(w, a, Twos(v.integrated));
      var b := a + Twos(v.integrated);
      TwosWritten(WBytes(w, b), v.digitalPeak);
      Then(w, b, Twos(v.digitalPeak));
      var c := b + Twos(v.digitalPeak);
      if v.truePeak.Some? {
        TwosWritten(WBytes(w, c), v.truePeak.value);
        Then(w, c, Twos(v.truePeak.value));
      } else {
        assert c + [] == c;
      }
    }
  }

  lemma InfoIs(v: Loudness)
    ensures InfoFormat(v) == [v.InfoType()]
  {
  }

  lemma LoudnessWritten(w: BitSeq, v: Loudness)
    ensures Gives(WLoudness(w, v), w, LoudnessFormat(v))
  {
    hide WLoudnessHead, WAnchors, WSized, WBytes, Each, Sized, Packed, InfoFormat, Twos;
    if WLoudness(w, v).Ok? {
      var a := LoudnessHeadFormat(v);
      LoudnessHeadWritten(w, v);
      var anchors := if v.anchored.Some?
                     then Packed(|v.anchored.value|) + Each((a: AnchorElement) => AnchorFormat(a), v.anchored.value)
                     else [];
      if v.anchored.Some? {
        AnchorsWritten(WBytes(w, a), v.anchored.value);
        Then(w, a, anchors);
      } else {
        assert a + anchors == a;
      }
      if v.extension.Some? {
        SizedWritten(WBytes(w, a + anchors), v.extension.value.bytes);
        Then(w, a + anchors, Sized(v.extension.value.bytes));
      } else {
        assert a + anchors + [] == a + anchors;
      }
    }
  }

  lemma LayoutWritten(w: BitSeq, v: LayoutWithLoudness)
    ensures Gives(WMixLayout(w, v), w, LayoutFormat(v))
  {
    hide WLayoutSelector, WLoudness, LoudnessFormat, WBytes, SelectorFormat;
    if WMixLayout(w, v).Ok? {
      var selector := SelectorFormat(v);
      SelectorWritten(w, v);
      LoudnessWritten(WBytes(w, selector), v.loudness);
      Then(w, selector, LoudnessFormat(v.loudness));
    }
  }

  lemma SystemWritten(w: BitSeq, code: nat, reserved: nat)
    requires WU(w, 2, 2).Ok? && WU(WU(w, 2, 2).value, code, 4).Ok?
    requires WU(WU(WU(w, 2, 2).value, code, 4).value, reserved, 2).Ok?
    ensures WU(WU(WU(w, 2, 2).value, code, 4).value, reserved, 2) ==
            Ok(WBytes(w, Packed(128 + 4 * code + reserved)))
  {
    hide WU, WBytes, Pow2;
    Widths();
    FieldsJoin(w, 2, 2, code, 4);
    TwoFields(w, 32 + code, 6, reserved, 2);
  }

  lemma SelectorWritten(w: BitSeq, v: LayoutWithLoudness)
    ensures Gives(WLayoutSelector(w, v), w, SelectorFormat(v))
  {
    hide WU, WBytes, Pow2, Packed;
    if WLayoutSelector(w, v).Ok? {
      match v.layout
      case SystemLayout(system) => SystemWritten(w, system.Value(), v.reserved);
      case BinauralLayout => ByteOfTwo(w, 3, v.reserved);
      case ReservedMixLayout(raw) => ByteOfTwo(w, raw, v.reserved);
    }
  }

  /** Two bits and six. */
  lemma ByteOfTwo(w: BitSeq, x: nat, y: nat)
    requires WU(w, x, 2).Ok? && WU(WU(w, x, 2).value, y, 6).Ok?
    ensures WU(WU(w, x, 2).value, y, 6) == Ok(WBytes(w, Packed(64 * x + y)))
  {
    hide WU, WBytes, Pow2;
    Widths();
    TwoFields(w, x, 2, y, 6);
  }

  lemma MembersWritten(w: BitSeq, members: seq<SubMixElement>)
    ensures Gives(WCounted(w, members, WSubMixElement), w, Counted((m: SubMixElement) => MemberFormat(m), members))
  {
    hide WSubMixElement, MemberFormat, WCounted, Counted;
    var f := (m: SubMixElement) => MemberFormat(m);
    forall k | 0 <= k < |members| ensures ItemGives(WSubMixElement, f, members[k]) {
      forall w: BitSeq ensures Gives(WSubMixElement(w, members[k]), w, f(members[k])) {
        MemberWritten(w, members[k]);
      }
    }
    CountedWritten(w, members, WSubMixElement, f);
  }

  lemma LayoutsWritten(w: BitSeq, layouts: seq<LayoutWithLoudness>)
    ensures Gives(WCounted(w, layouts, WMixLayout), w, Counted((l: LayoutWithLoudness) => LayoutFormat(l), layouts))
  {
    hide WMixLayout, LayoutFormat, WCounted, Counted;
    var f := (l: LayoutWithLoudness) => LayoutFormat(l);
    forall k | 0 <= k < |layouts| ensures ItemGives(WMixLayout, f, layouts[k]) {
      forall w: BitSeq ensures Gives(WMixLayout(w, layouts[k]), w, f(layouts[k])) {
        LayoutWritten(w, layouts[k]);
      }
    }
    CountedWritten(w, layouts, WMixLayout, f);
  }

  lemma SubMixWritten(w: BitSeq, v: SubMix)
    ensures Gives(WSubMix(w, v), w, SubMixFormat(v))
  {
    hide WCounted, Counted, WMixGainDefinition, GainFormat, WBytes, WSubMixElement, WMixLayout;
    if WSubMix(w, v).Ok? {
      var a := Counted((m: SubMixElement) => MemberFormat(m), v.elements);
      MembersWritten(w, v.elements);
      GainWritten(WBytes(w, a), v.outputMixGain);
      Then(w, a, GainFormat(v.outputMixGain));
      var b := a + GainFormat(v.outputMixGain);
      LayoutsWritten(WBytes(w, b), v.layouts);
      Then(w, b, Counted((l: LayoutWithLoudness) => LayoutFormat(l), v.layouts));
    }
  }

  lemma SubMixesWritten(w: BitSeq, subMixes: seq<SubMix>)
    ensures Gives(WCounted(w, subMixes, WSubMix), w, Counted((m: SubMix) => SubMixFormat(m), subMixes))
  {
    hide WSubMix, SubMixFormat, WCounted, Counted;
    var f := (m: SubMix) => SubMixFormat(m);
    forall k | 0 <= k < |subMixes| ensures ItemGives(WSubMix, f, subMixes[k]) {
      forall w: BitSeq ensures Gives(WSubMix(w, subMixes[k]), w, f(subMixes[k])) {
        SubMixWritten(w, subMixes[k]);
      }
    }
    CountedWritten(w, subMixes, WSubMix, f);
  }

  lemma MixWritten(w: BitSeq, v: MixPresentation)
    ensures Gives(WMixBody(w, v), w, MixFormat(v))
  {
    hide WLeb, Leb, WCounted, Counted, WMany, Each, WBytes, WString, WSubMix, AnnotationCountsMatch;
    if WMixBody(w, v).Ok? {
      var a := Leb(v.mixPresentationId);
      LebWritten(w, v.mixPresentationId);
      TextsWritten(WBytes(w, a), v.annotationsLanguage);
      var languages := Counted((text: seq<u8>) => TextFormat(text), v.annotationsLanguage);
      Then(w, a, languages);
      TextsWritten(WBytes(w, a + languages), v.presentationAnnotations);
      var texts := Each((text: seq<u8>) => TextFormat(text), v.presentationAnnotations);
      Then(w, a + languages, texts);
      SubMixesWritten(WBytes(w, a + languages + texts), v.subMixes);
      Then(w, a + languages + texts, Counted((m: SubMix) => SubMixFormat(m), v.subMixes));
    }
  }

  // -------------------------------------------------------- temporal payloads, written

  lemma MixGainWritten(w: BitSeq, v: MixGainData)
    ensures Gives(WMixGain(w, v), w, MixGainFormat(v))
  {
    hide WLeb, Leb, WBytes, Twos, WI16, WU;
    var code := match v case StepGain(_) => 0 case LinearGain(_, _) => 1 case BezierGain(_, _, _, _) => 2;
    var a := [code] + Twos(v.start);
    LebWritten(w, code);
    SmallLeb(code);
    TwosWritten(WBytes(w, [code]), v.start);
    Then(w, [code], Twos(v.start));
    if !v.StepGain? {
      TwosWritten(WBytes(w, a), v.end);
      Then(w, a, Twos(v.end));
    }
    if v.BezierGain? {
      var b := a + Twos(v.end);
      TwosWritten(WBytes(w, b), v.control);
      Then(w, b, Twos(v.control));
      ByteWritten(WBytes(w, b + Twos(v.control)), v.relativeTime);
      Then(w, b + Twos(v.control), [v.relativeTime]);
    }
  }

  /** The bits of a flag from bit `k` up. */
  function BitsFrom(flag: nat, k: nat): nat {
    if k == 0 then flag else BitsFrom(flag, k - 1) / 2
  }

  lemma {:induction false} BitsFromIs(flag: nat, k: nat)
    ensures flag / Pow2(k) == BitsFrom(flag, k)
  {
    if k > 0 {
      BitsFromIs(flag, k - 1);
      HalvedBit(flag, Pow2(k - 1), BitsFrom(flag, k - 1));
    }
  }

  lemma HalvedBit(flag: nat, p: nat, q: nat)
    requires p > 0 && flag / p == q
    ensures flag / (2 * p) == q / 2
  {
    var r := flag % p;
    assert flag == q * p + r;
    assert q == q / 2 * 2 + q % 2;
    assert flag == q / 2 * (2 * p) + (q % 2 * p + r);
    assert 0 <= q % 2 * p + r < 2 * p;
    Packing.SplitIndex(2 * p, q / 2, q % 2 * p + r);
  }

  lemma NextBits(flag: nat, k: nat)
    ensures BitsFrom(flag, k + 1) == BitsFrom(flag, k) / 2
  {
  }

  lemma SelectedIsOdd(flag: u32, k: nat)
    ensures Selected(flag, k) <==> BitsFrom(flag, k) % 2 == 1
  {
    BitsFromIs(flag, k);
  }

  lemma {:induction false} GainsWritten(w: BitSeq, flag: u32, gains: Gains, k: nat)
    requires k <= 12
    ensures WGains(w, flag, gains, k) == WBytes(w, GainsFormat(BitsFrom(flag, k), gains, k))
    decreases 12 - k
  {
    hide BitsOf, WBytes, Pow2, Selected, BitsFrom;
    if k == 12 {
      NoBytes(w);
    } else {
      assert BitsFrom(flag, k + 1) == BitsFrom(flag, k) / 2 by { NextBits(flag, k); }
      SelectedIsOdd(flag, k);
      var rest := GainsFormat(BitsFrom(flag, k + 1), gains, k + 1);
      if Selected(flag, k) {
        ByteWritten(w, gains[k]);
        GainsWritten(WBytes(w, [gains[k]]), flag, gains, k + 1);
        Then(w, [gains[k]], rest);
      } else {
        GainsWritten(w, flag, gains, k + 1);
        assert [] + rest == rest;
      }
    }
  }

  lemma ReconLayerWritten(w: BitSeq, v: ReconGainElement)
    ensures WLayer(w, v) == WBytes(w, ReconLayerFormat(Some(v)))
  {
    hide WLeb, Leb, WBytes, WGains, GainsFormat;
    LebWritten(w, v.flag);
    GainsWritten(WBytes(w, Leb(v.flag)), v.flag, v.gains, 0);
    assert BitsFrom(v.flag, 0) == v.flag;
    Then(w, Leb(v.flag), GainsFormat(v.flag, v.gains, 0));
  }

  lemma {:induction false} ReconLayersWritten(
      w: BitSeq, layers: seq<Option<ReconGainElement>>, present: seq<bool>, i: nat)
    requires i <= |layers| == |present| && forall k | 0 <= k < |layers| :: layers[k].Some? == present[k]
    ensures Gives(WLayers(w, layers, present, i), w,
                  Each((l: Option<ReconGainElement>) => ReconLayerFormat(l), layers[i..]))
    decreases |layers| - i
  {
    hide WLayer, WBytes, Leb, GainsFormat;
    var f := (l: Option<ReconGainElement>) => ReconLayerFormat(l);
    if i == |layers| {
      NoBytes(w);
    } else {
      assert layers[i..][1..] == layers[i + 1..];
      var rest := Each(f, layers[i + 1..]);
      if present[i] {
        ReconLayerWritten(w, layers[i].value);
        ReconLayersWritten(WLayer(w, layers[i].value), layers, present, i + 1);
        Then(w, f(layers[i]), rest);
      } else {
        ReconLayersWritten(w, layers, present, i + 1);
        assert [] + rest == rest;
      }
    }
  }

  lemma DataWritten(w: BitSeq, context: Context, v: ParameterData)
    requires KindMatches(context, v)
    ensures Gives(WData(w, context, v), w, DataFormat(v))
  {
    hide WMixGain, MixGainFormat, WLayers, Each, WBytes, WU, WSized, Sized, Pow2;
    match v
    case MixGain(mix) => MixGainWritten(w, mix);
    case Demixing(mode, reserved) =>
      if WDemixing(w, mode, reserved).Ok? {
        Widths();
        TwoFields(w, mode, 3, reserved, 5);
      }
    case ReconGain(layers) =>
      ReconLayersWritten(w, layers, context.present, 0);
      assert layers[0..] == layers;
    case Raw(bytes) => SizedWritten(w, bytes);
  }

  lemma SubblockWritten(w: BitSeq, context: Context, v: Subblock)
    requires KindMatches(context, v.data)
    ensures Gives(WSubblock(w, context, v), w, SubblockFormat(v))
  {
    hide WData, DataFormat, WBytes, WLeb, Leb, KindMatches;
    if v.duration.Some? {
      LebWritten(w, v.duration.value);
      DataWritten(WBytes(w, Leb(v.duration.value)), context, v.data);
      Then(w, Leb(v.duration.value), DataFormat(v.data));
    } else {
      DataWritten(w, context, v.data);
      assert [] + DataFormat(v.data) == DataFormat(v.data);
    }
  }

  lemma SubblocksWritten(w: BitSeq, context: Context, subblocks: seq<Subblock>)
    requires forall k | 0 <= k < |subblocks| :: KindMatches(context, subblocks[k].data)
    ensures Gives(WMany(w, subblocks, 0, SubblockWriter(context)), w,
                  Each((s: Subblock) => SubblockFormat(s), subblocks))
  {
    hide WSubblock, SubblockFormat, WMany, Each, KindMatches;
    var f, wr := (s: Subblock) => SubblockFormat(s), SubblockWriter(context);
    forall k | 0 <= k < |subblocks| ensures ItemGives(wr, f, subblocks[k]) {
      forall w: BitSeq ensures Gives(wr(w, subblocks[k]), w, f(subblocks[k])) {
        SubblockWritten(w, context, subblocks[k]);
      }
    }
    AllWrittenAs(w, subblocks, wr, f);
  }

  lemma BlockHeadWritten(w: BitSeq, v: ParameterBlock)
    requires |v.subblocks| < U32_LIMIT
    ensures WBlockHead(w, v) == WBytes(w, BlockHeadFormat(v))
  {
    hide WLeb, Leb, WBytes;
    var a := Leb(v.parameterId);
    LebWritten(w, v.parameterId);
    if v.durationFields.None? {
      assert a + [] == a;
    } else {
      var fields := v.durationFields.value;
      LebWritten(WBytes(w, a), fields.duration);
      Then(w, a, Leb(fields.duration));
      var b := a + Leb(fields.duration);
      LebWritten(WBytes(w, b), fields.constantSubblockDuration);
      Then(w, b, Leb(fields.constantSubblockDuration));
      var c := b + Leb(fields.constantSubblockDuration);
      assert c == a + (Leb(fields.duration) + Leb(fields.constantSubblockDuration));
      if Timed(v) {
        LebWritten(WBytes(w, c), |v.subblocks|);
        Then(w, c, Leb(|v.subblocks|));
        assert c + Leb(|v.subblocks|) == BlockHeadFormat(v);
      } else {
        assert Leb(fields.duration) + Leb(fields.constantSubblockDuration) + [] ==
               Leb(fields.duration) + Leb(fields.constantSubblockDuration);
      }
    }
  }

  lemma BlockWritten(w: BitSeq, def: ParamDefinition, context: Context, v: ParameterBlock)
    ensures Gives(WParameterBlock(w, def, context, v), w, BlockFormat(v))
  {
    hide ValidateParameterBlock, WBlockHead, WMany, WBytes, Each, BlockHeadFormat, KindMatches, Leb;
    if WParameterBlock(w, def, context, v).Ok? {
      PayloadWriters.ValidBlockFits(def, context, v);
      ValidKinds(def, context, v);
      BlockHeadWritten(w, v);
      SubblocksWritten(WBytes(w, BlockHeadFormat(v)), context, v.subblocks);
      Then(w, BlockHeadFormat(v), Each((s: Subblock) => SubblockFormat(s), v.subblocks));
    }
  }

  lemma FrameWritten(w: BitSeq, h: ObuHeader, v: AudioFrame)
    ensures Gives(WAudioFrame(w, h, v), w, FrameFormat(h, v))
  {
    hide WLeb, Leb, WBytes;
    if WAudioFrame(w, h, v).Ok? {
      if h.obuType.Value() == 5 {
        LebWritten(w, v.substreamId);
        Then(w, Leb(v.substreamId), v.payload);
      } else {
        assert [] + v.payload == v.payload;
      }
    }
  }

  // --------------------------------------------------------------------- OBUs, written

  /** Five bits and three flags. */
  lemma FlaggedByte(w: BitSeq, x: nat, a: bool, b: bool, c: bool)
    requires WU(w, x, 5).Ok?
    ensures WBool(WBool(WBool(WU(w, x, 5).value, a), b), c) ==
            WBytes(w, Packed(8 * x + 4 * Bit(a) + 2 * Bit(b) + Bit(c)))
  {
    hide WU, WBool, WBytes, Pow2, Bit, Packed;
    FlagsJoin(w, x, 5, a, b, c);
    var byte := x * 8 + 4 * Bit(a) + 2 * Bit(b) + Bit(c);
    PackedWritten(w, byte);
    assert byte == 8 * x + 4 * Bit(a) + 2 * Bit(b) + Bit(c);
  }

  lemma PackedWritten(w: BitSeq, v: nat)
    requires WU(w, v, 8).Ok?
    ensures WU(w, v, 8).value == WBytes(w, Packed(v))
  {
    hide Pow2, BitsOf, WBytes;
    PowersOfTwo();
    ByteWritten(w, v);
  }

  lemma FlagsWritten(w: BitSeq, h: ObuHeader)
    ensures Gives(WFlags(w, h), w, FlagsFormat(h))
  {
    hide WU, WBool, WBytes, Bit, Packed;
    if WFlags(w, h).Ok? {
      FlaggedByte(w, h.obuType.Value(), h.redundantCopy, h.TrimmingFlag(), h.ExtensionFlag());
    }
  }

  lemma AfterWritten(w: BitSeq, h: ObuHeader)
    ensures Gives(WAfterSize(w, h), w, AfterFormat(h))
  {
    hide WLeb, Leb, WBytes;
    var trims := if h.TrimmingFlag() then Leb(h.typeSpecific.trim.value.atEnd) + Leb(h.typeSpecific.trim.value.atStart)
                 else [];
    if h.TrimmingFlag() {
      var t := h.typeSpecific.trim.value;
      LebWritten(w, t.atEnd);
      LebWritten(WBytes(w, Leb(t.atEnd)), t.atStart);
      Then(w, Leb(t.atEnd), Leb(t.atStart));
    } else {
      NoBytes(w);
    }
    if h.extension.Some? {
      var bytes := h.extension.value;
      if |bytes| < U32_LIMIT {
        LebWritten(WBytes(w, trims), |bytes|);
        Then(WBytes(w, trims), Leb(|bytes|), bytes);
        Then(w, trims, Sized(bytes));
      }
    } else {
      assert trims + [] == trims;
    }
  }

  lemma BytesLength(bytes: seq<u8>)
    ensures WBytes([], bytes) == BytesBits(bytes) && |BytesBits(bytes)| / 8 == |bytes|
  {
    assert [] + BytesBits(bytes) == BytesBits(bytes);
  }

  lemma ObuWritten(w: BitSeq, h: ObuHeader, payload: seq<u8>)
    ensures Gives(WObu(w, h, BytesBits(payload)), w, ObuFormat(h, payload))
  {
    hide WFlags, WAfterSize, WBytes, WLeb, Leb, FlagsFormat, AfterFormat, ValidateHeader, BytesBits;
    if WObu(w, h, BytesBits(payload)).Ok? {
      AfterWritten([], h);
      BytesLength(AfterFormat(h));
      BytesLength(payload);
      var size := |AfterFormat(h)| + |payload|;
      FlagsWritten(w, h);
      LebWritten(WBytes(w, FlagsFormat(h)), size);
      Then(w, FlagsFormat(h), Leb(size));
      var head := FlagsFormat(h) + Leb(size);
      ThreeParts(w, head, AfterFormat(h), payload);
    }
  }

  lemma ThreeParts(w: BitSeq, a: seq<u8>, b: seq<u8>, c: seq<u8>)
    ensures WBytes(w, a) + BytesBits(b) + BytesBits(c) == WBytes(w, a + b + c)
  {
    hide BytesBits;
    Then(w, a, b);
    Then(w, a + b, c);
  }

  lemma FramedWritten(w: BitSeq, h: ObuHeader, body: Result<BitSeq>, bytes: seq<u8>, trailing: seq<u8>)
    requires Gives(body, [], bytes)
    ensures Gives(WObuWith(w, h, body, trailing), w, ObuFormat(h, bytes + trailing))
  {
    hide WObu, ObuFormat, WBytes, BytesBits;
    if WObuWith(w, h, body, trailing).Ok? {
      Then([], bytes, trailing);
      BytesLength(bytes + trailing);
      ObuWritten(w, h, bytes + trailing);
    }
  }

  lemma PayloadWritten(body: Result<BitSeq>, bytes: seq<u8>, trailing: seq<u8>)
    requires Gives(body, [], bytes)
    ensures Gives(WithTrailing(body, trailing), [], bytes + trailing)
  {
    hide WBytes;
    Then([], bytes, trailing);
  }

  lemma SeqObuWritten(w: BitSeq, registry: Registry, o: SequenceObu)
    ensures Gives(WSeqObu(w, registry, o), w, SeqObuFormat(o))
  {
    hide WObuWith, WObu, ObuFormat, WHeaderBody, WCodecBody, WElementBody, WMixBody, WParameterBlock, WAudioFrame;
    hide HeaderFormat, CodecFormat, ElementFormat, MixFormat, BlockFormat, FrameFormat, WBytes, BytesBits;
    match o
    case IaHeader(o) =>
      HeaderWritten([], o.payload);
      PayloadWritten(WHeaderBody([], o.payload), HeaderFormat(o.payload), o.payload.trailing);
      FramedWritten(w, o.header, WHeaderPayload(o.payload), HeaderFormat(o.payload) + o.payload.trailing, o.trailing);
    case Codec(o) =>
      CodecWritten([], o.payload);
      PayloadWritten(WCodecBody([], o.payload), CodecFormat(o.payload), o.payload.trailing);
      FramedWritten(w, o.header, WCodecPayload(o.payload), CodecFormat(o.payload) + o.payload.trailing, o.trailing);
    case Element(o) =>
      ElementWritten([], o.payload);
      PayloadWritten(WElementBody([], o.payload), ElementFormat(o.payload), o.payload.trailing);
      FramedWritten(w, o.header, WElementPayload(o.payload), ElementFormat(o.payload) + o.payload.trailing, o.trailing);
    case Mix(o) =>
      MixWritten([], o.payload);
      PayloadWritten(WMixBody([], o.payload), MixFormat(o.payload), o.payload.trailing);
      FramedWritten(w, o.header, WMixPayload(o.payload), MixFormat(o.payload) + o.payload.trailing, o.trailing);
    case Block(o) =>
      var governing := Get(registry, o.payload.parameterId);
      if governing.Some? {
        BlockWritten([], governing.value.definition, governing.value.context, o.payload);
      }
      FramedWritten(w, o.header, WGovernedBlock(registry, o.payload), BlockFormat(o.payload), o.trailing);
    case Ungoverned(h, bytes) => ObuWritten(w, h, bytes);
    case Delimiter(o) =>
      NoBytes([]);
      FramedWritten(w, o.header, Ok([]), [], o.trailing);
      assert [] + o.trailing == o.trailing;
    case Frame(o) =>
      FrameWritten([], o.header, o.payload);
      FramedWritten(w, o.header, WAudioFrame([], o.header, o.payload), FrameFormat(o.header, o.payload), o.trailing);
    case Unknown(h, bytes) => ObuWritten(w, h, bytes);
  }

  lemma {:induction false} AllWritten(w: BitSeq, registry: Registry, s: seq<SequenceObu>)
    ensures Gives(WAll(w, registry, s), w, SequenceFormat(s))
    decreases |s|
  {
    hide WSeqObu, Observe, SeqObuFormat, WBytes;
    if s == [] {
      NoBytes(w);
    } else {
      SeqObuWritten(w, registry, s[0]);
      if WSeqObu(w, registry, s[0]).Ok? {
        AllWritten(WSeqObu(w, registry, s[0]).value, Observe(registry, s[0]), s[1..]);
        Then(w, SeqObuFormat(s[0]), SequenceFormat(s[1..]));
      }
    }
  }

  /** The writer writes the format: whatever it makes of a sequence is these bytes. */
  lemma WritesTheFormat(s: seq<SequenceObu>)
    requires WriteSequence(s).Ok?
    ensures WriteSequence(s).value == SequenceFormat(s)
  {
    hide WAll, SequenceFormat, BytesBits;
    AllWritten([], [], s);
    BytesLength(SequenceFormat(s));
    PackOfBytes(SequenceFormat(s));
  }
}
