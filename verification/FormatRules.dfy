/** The numbers of the format that no payload shows by itself: codes, ceilings, and what a header may say. */
module FormatRules {
  import opened Core
  import opened Bits
  import opened Leb128
  import opened Layouts
  import opened Obus
  import ParameterBlocks
  import opened CodecConfigs
  import opened MixPresentations
  import opened AudioFrames
  import opened SequenceObus
  import opened Parts
  import opened Formats
  import opened FormatWriting

  // ------------------------------------------------------------------------ codes

  const OBU_TYPES: seq<ObuType> := [
    CodecConfigObu, AudioElementObu, MixPresentationObu, ParameterBlockObu, TemporalDelimiterObu, AudioFrameObu]

  const SYSTEMS: seq<SoundSystem> := [
    A0_2_0, B0_5_0, C2_5_0, D4_5_0, E4_5_1, F3_7_0, G4_9_0, H9_10_3, I0_7_0, J4_7_0, Ss10_2_7_0, Ss11_2_3_0,
    Ss12_0_1_0, Ss13_6_9_0]

  /** Each code is its place in the list; the frames with an id of their own follow, and the header is last. */
  lemma CodesAreTheLists(i: nat)
    ensures i < |OBU_TYPES| ==> OBU_TYPES[i].Value() == i && ObuType.FromValue(i) == OBU_TYPES[i]
    ensures i <= 17 ==> AudioFrameIdObu(i).Value() == 6 + i && ObuType.FromValue(6 + i) == AudioFrameIdObu(i)
    ensures IaSequenceHeaderObu.Value() == 31 && ObuType.FromValue(31) == IaSequenceHeaderObu
    ensures i < |SYSTEMS| ==> SYSTEMS[i].Value() == i && SoundSystem.FromValue(i) == SYSTEMS[i]
    ensures BigEndian.Value() == 0 && LittleEndian.Value() == 1
    ensures StereoMode.Value() == 0 && BinauralMode.Value() == 1
  {
  }

  /** A substream has a type of its own, from 6 on, while the types last. */
  lemma FrameTypes(id: u32)
    ensures ObuTypeFor(id).Value() == if id <= 17 then 6 + id else 5
  {
  }

  /** The OBUs that make up temporal units are those of the types 3 to 23. */
  lemma TemporalByCode(registry: ParameterBlocks.Registry, o: SequenceObu)
    requires WellFormed(registry, o)
    ensures IsTemporal(o) <==> 3 <= o.Header().obuType.Value() <= 23
  {
  }

  // ---------------------------------------------------------------------- headers

  /**
    What the flags may say: a copy may be redundant only where the type is not 3 to 23, there are trims only
    where it is 5 to 23, and a reserved type is none of the defined ones.
  */
  lemma HeaderRules(h: ObuHeader)
    ensures ValidateHeader(h).Ok? <==>
            var code := h.obuType.Value();
            && (h.obuType.ReservedObu? ==> 24 <= code && code != 31)
            && (h.TrimmingFlag() ==> 5 <= code <= 23)
            && (h.redundantCopy ==> code <= 2 || code >= 24)
  {
  }

  /** With a valid header, an OBU is written if and only if all of it takes no more than 2 MiB. */
  lemma ObuCeiling(h: ObuHeader, payload: seq<u8>)
    requires ValidateHeader(h).Ok? && h.obuType.Value() < 32
    requires h.extension.Some? ==> |h.extension.value| < 0x1_0000_0000
    ensures WObu([], h, BytesBits(payload)).Ok? <==> |ObuFormat(h, payload)| <= 2_097_152
  {
    hide WFlags, WAfterSize, WBytes, WLeb, Leb, AfterFormat, ValidateHeader, BytesBits;
    AfterOk(h);
    AfterWritten([], h);
    BytesLength(AfterFormat(h));
    BytesLength(payload);
    FlagsOk(h);
    var size := |AfterFormat(h)| + |payload|;
    if size < U32_LIMIT {
      LebWritten([], size);
    }
  }

  lemma AfterOk(h: ObuHeader)
    requires h.extension.Some? ==> |h.extension.value| < 0x1_0000_0000
    ensures WAfterSize([], h).Ok?
  {
    hide WLeb, WBytes;
  }

  lemma FlagsOk(h: ObuHeader)
    requires h.obuType.Value() < 32
    ensures WFlags([], h).Ok?
  {
    hide Pow2;
    Widths();
  }

  // ------------------------------------------------------------------------ fields

  /** A text is up to 127 bytes with none of them zero. */
  lemma TextRule(w: BitSeq, text: seq<u8>)
    ensures WString(w, text).Ok? <==> |text| <= 127 && 0 !in text
  {
  }

  /** A uleb128 of a given size: up to eight bytes, and seven bits of each. */
  lemma FixedSizeRule(w: BitSeq, v: u32, size: u8)
    ensures WLebFixed(w, v, size).Ok? <==> 1 <= size <= 8 && v < Pow2(7 * size)
  {
    hide LebBits, Pow2;
    MinimalLenIsLeast(v, size);
    CapacityIs(size);
  }

  lemma {:induction false} CapacityIs(n: nat)
    ensures Capacity(n) == Pow2(7 * n)
  {
    if n > 0 {
      CapacityIs(n - 1);
      PowAdds(7 * (n - 1), 7);
      Widths();
    }
  }

  /**
    Any bytes make a decoder config. It is typed where there are at least six bytes of LPCM, 38 of FLAC or 11 of
    Opus, or 19 of AAC that form the one descriptor known; and raw otherwise.
  */
  lemma AnyDecoderConfig(d: BitSeq, p: nat, codecId: CodecId)
    requires p % 8 == 0 && p <= |d|
    ensures RDecoderConfig(d, p, codecId).Ok?
    ensures var bytes := (|d| - p) / 8;
            match RDecoderConfig(d, p, codecId).value.0
            case Lpcm(_) => codecId == [0x69, 0x70, 0x63, 0x6d] && bytes >= 6
            case Flac(_) => codecId == [0x66, 0x4c, 0x61, 0x43] && bytes >= 38
            case Opus(_) => codecId == [0x4f, 0x70, 0x75, 0x73] && bytes >= 11
            case AacLc(_) =>
              && codecId == [0x6d, 0x70, 0x34, 0x61] && bytes >= 19
              && ByteAt(d, p) == 4 && ByteAt(d, p + 8) == 17 && ByteAt(d, p + 24) % 2 == 1
              && ByteAt(d, p + 120) == 5 && ByteAt(d, p + 128) == 2
            case RawConfig(id, rest) =>
              && id == codecId && rest == BytesAt(d, p, bytes)
              && !(codecId == [0x69, 0x70, 0x63, 0x6d] && bytes >= 6)
              && !(codecId == [0x66, 0x4c, 0x61, 0x43] && bytes >= 38)
              && !(codecId == [0x4f, 0x70, 0x75, 0x73] && bytes >= 11)
              && !(codecId == [0x6d, 0x70, 0x34, 0x61] && bytes >= 19
                   && ByteAt(d, p) == 4 && ByteAt(d, p + 8) == 17 && ByteAt(d, p + 24) % 2 == 1
                   && ByteAt(d, p + 120) == 5 && ByteAt(d, p + 128) == 2)
  {
    hide Val, Pow2, RLpcm, RFlac, ROpus, RAac, ByteAt;
    CodecIdsDiffer();
    FixedReads(d, p);
  }

  /** The typed configs ask for no more bits than their bytes hold. */
  lemma FixedReads(d: BitSeq, p: nat)
    requires p % 8 == 0 && p <= |d|
    ensures (|d| - p) / 8 >= 6 ==> RLpcm(d, p).Ok?
    ensures (|d| - p) / 8 >= 38 ==> RFlac(d, p).Ok?
    ensures (|d| - p) / 8 >= 11 ==> ROpus(d, p).Ok?
    ensures (|d| - p) / 8 >= 19 ==> RAac(d, p).Ok?
  {
    hide Val, Pow2;
  }
}
