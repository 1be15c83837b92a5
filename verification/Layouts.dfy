/** The layout enums of the Audio Element and the Mix Presentation, and their channel counts. */
module Layouts {
  import opened Core

  datatype ExpandedLayout =
    | Lfe | StereoS | StereoSs | StereoRs | StereoTf | StereoTb | Top4Ch | Ch3_0 | Ch9_1_6
    | StereoF | StereoSi | StereoTpSi | Top6Ch | ReservedExpanded(raw: u8)
  {
    function Value(): u8 {
      match this
      case Lfe => 0
      case StereoS => 1
      case StereoSs => 2
      case StereoRs => 3
      case StereoTf => 4
      case StereoTb => 5
      case Top4Ch => 6
      case Ch3_0 => 7
      case Ch9_1_6 => 8
      case StereoF => 9
      case StereoSi => 10
      case StereoTpSi => 11
      case Top6Ch => 12
      case ReservedExpanded(raw) => raw
    }

    static function FromValue(value: u8): ExpandedLayout {
      match value
      case 0 => Lfe
      case 1 => StereoS
      case 2 => StereoSs
      case 3 => StereoRs
      case 4 => StereoTf
      case 5 => StereoTb
      case 6 => Top4Ch
      case 7 => Ch3_0
      case 8 => Ch9_1_6
      case 9 => StereoF
      case 10 => StereoSi
      case 11 => StereoTpSi
      case 12 => Top6Ch
      case _ => ReservedExpanded(value)
    }

    function ChannelCount(): Option<u32> {
      match this
      case Lfe => Some(1)
      case Top4Ch => Some(4)
      case Ch3_0 => Some(3)
      case Ch9_1_6 => Some(16)
      case Top6Ch => Some(6)
      case ReservedExpanded(_) => None
      case _ => Some(2)
    }

    /** (substreams, coupled substreams) of a single-layer element. */
    function SingleLayerCounts(): Option<(u8, u8)> {
      match this
      case Lfe => Some((1, 0))
      case Top4Ch => Some((2, 2))
      case Ch3_0 => Some((2, 1))
      case Ch9_1_6 => Some((9, 7))
      case Top6Ch => Some((3, 3))
      case ReservedExpanded(_) => None
      case _ => Some((1, 1))
    }

    predicate Canonical() {
      ReservedExpanded? ==> raw >= 13
    }
  }

  datatype LoudspeakerLayout =
    | Mono | Stereo | Ch5_1 | Ch5_1_2 | Ch5_1_4 | Ch7_1 | Ch7_1_2 | Ch7_1_4 | Ch3_1_2 | Binaural
    | ReservedLayout(raw: u8) | Expanded(expanded: ExpandedLayout)
  {
    function Value(): u8 {
      match this
      case Mono => 0
      case Stereo => 1
      case Ch5_1 => 2
      case Ch5_1_2 => 3
      case Ch5_1_4 => 4
      case Ch7_1 => 5
      case Ch7_1_2 => 6
      case Ch7_1_4 => 7
      case Ch3_1_2 => 8
      case Binaural => 9
      case ReservedLayout(raw) => raw
      case Expanded(_) => 15
    }

    /** `None` for 15: the expanded byte that completes it follows on the wire. */
    static function FromValue(value: u8): Option<LoudspeakerLayout> {
      match value
      case 0 => Some(Mono)
      case 1 => Some(Stereo)
      case 2 => Some(Ch5_1)
      case 3 => Some(Ch5_1_2)
      case 4 => Some(Ch5_1_4)
      case 5 => Some(Ch7_1)
      case 6 => Some(Ch7_1_2)
      case 7 => Some(Ch7_1_4)
      case 8 => Some(Ch3_1_2)
      case 9 => Some(Binaural)
      case _ => if 10 <= value <= 14 then Some(ReservedLayout(value)) else None
    }

    function ChannelCount(): Option<u32> {
      match this
      case Mono => Some(1)
      case Stereo => Some(2)
      case Ch5_1 => Some(6)
      case Ch5_1_2 => Some(8)
      case Ch5_1_4 => Some(10)
      case Ch7_1 => Some(8)
      case Ch7_1_2 => Some(10)
      case Ch7_1_4 => Some(12)
      case Ch3_1_2 => Some(6)
      case Binaural => Some(2)
      case ReservedLayout(_) => None
      case Expanded(expanded) => expanded.ChannelCount()
    }

    function SingleLayerCounts(): Option<(u8, u8)> {
      match this
      case Mono => Some((1, 0))
      case Stereo => Some((1, 1))
      case Ch5_1 => Some((4, 2))
      case Ch5_1_2 => Some((5, 3))
      case Ch5_1_4 => Some((6, 4))
      case Ch7_1 => Some((5, 3))
      case Ch7_1_2 => Some((6, 4))
      case Ch7_1_4 => Some((7, 5))
      case Ch3_1_2 => Some((4, 2))
      case Binaural => Some((1, 1))
      case ReservedLayout(_) => None
      case Expanded(expanded) => expanded.SingleLayerCounts()
    }

    predicate Canonical() {
      && (ReservedLayout? ==> 10 <= raw <= 14)
      && (Expanded? ==> expanded.Canonical())
    }
  }

  datatype SoundSystem =
    | A0_2_0 | B0_5_0 | C2_5_0 | D4_5_0 | E4_5_1 | F3_7_0 | G4_9_0 | H9_10_3 | I0_7_0 | J4_7_0
    | Ss10_2_7_0 | Ss11_2_3_0 | Ss12_0_1_0 | Ss13_6_9_0 | ReservedSystem(raw: u8)
  {
    function Value(): u8 {
      match this
      case A0_2_0 => 0
      case B0_5_0 => 1
      case C2_5_0 => 2
      case D4_5_0 => 3
      case E4_5_1 => 4
      case F3_7_0 => 5
      case G4_9_0 => 6
      case H9_10_3 => 7
      case I0_7_0 => 8
      case J4_7_0 => 9
      case Ss10_2_7_0 => 10
      case Ss11_2_3_0 => 11
      case Ss12_0_1_0 => 12
      case Ss13_6_9_0 => 13
      case ReservedSystem(raw) => raw
    }

    static function FromValue(value: u8): SoundSystem {
      match value
      case 0 => A0_2_0
      case 1 => B0_5_0
      case 2 => C2_5_0
      case 3 => D4_5_0
      case 4 => E4_5_1
      case 5 => F3_7_0
      case 6 => G4_9_0
      case 7 => H9_10_3
      case 8 => I0_7_0
      case 9 => J4_7_0
      case 10 => Ss10_2_7_0
      case 11 => Ss11_2_3_0
      case 12 => Ss12_0_1_0
      case 13 => Ss13_6_9_0
      case _ => ReservedSystem(value)
    }

    predicate Canonical() {
      ReservedSystem? ==> raw >= 14
    }
  }

  /**
    The reserved values that stay outside the defined ones are exactly those the decoders produce, so
    each code is inverted on them and only on them.
  */
  lemma LayoutCodesInvert(l: LoudspeakerLayout, e: ExpandedLayout, s: SoundSystem)
    ensures e.Canonical() <==> ExpandedLayout.FromValue(e.Value()) == e
    ensures s.Canonical() <==> SoundSystem.FromValue(s.Value()) == s
    ensures !l.Expanded? ==> (l.Canonical() <==> LoudspeakerLayout.FromValue(l.Value()) == Some(l))
    ensures l.Expanded? ==> LoudspeakerLayout.FromValue(l.Value()) == None
  {
  }

  lemma LayoutValuesInvert(v: u8)
    ensures ExpandedLayout.FromValue(v).Canonical() && ExpandedLayout.FromValue(v).Value() == v
    ensures SoundSystem.FromValue(v).Canonical() && SoundSystem.FromValue(v).Value() == v
    ensures var l := LoudspeakerLayout.FromValue(v);
            l.Some? ==> l.value.Canonical() && l.value.Value() == v && !l.value.Expanded?
    ensures LoudspeakerLayout.FromValue(v) == None <==> v >= 15
  {
  }

  /** The substreams and coupled substreams of a single layer together carry exactly its channels. */
  lemma CountsCoverChannels(l: LoudspeakerLayout)
    ensures l.ChannelCount().Some? == l.SingleLayerCounts().Some?
    ensures l.ChannelCount().Some? ==>
              && l.ChannelCount().value == l.SingleLayerCounts().value.0 + l.SingleLayerCounts().value.1
              && l.SingleLayerCounts().value.1 <= l.SingleLayerCounts().value.0
  {
  }
}
