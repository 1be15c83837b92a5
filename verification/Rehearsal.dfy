/**
  The rehearsal of `build` and the start it stands for. The descriptors are serialised once under template ids,
  before lowering replaces those by the allocated ones, which may take more bytes on the wire.
*/
module Rehearsals {
  import opened Core
  import opened Bits
  import opened Leb128
  import opened Lists
  import opened Obus
  import opened ParamDefinitions
  import opened SequenceHeaders
  import opened CodecConfigs
  import opened AudioElements
  import opened MixPresentations
  import opened SequenceObus
  import opened Sequences
  import opened Sorting
  import opened Parts
  import opened Streams
  import opened Ceilings
  import opened Profiles
  import opened Findings
  import opened Declarations
  import opened Builds

  // ------------------------------------------------------------ bytes spent on ids

  function Total<T>(xs: seq<T>, cost: T -> nat): nat {
    if xs == [] then 0 else cost(xs[0]) + Total(xs[1..], cost)
  }

  /** The bytes that the ids of a descriptor take: its own, and those it refers to or defines. */
  function CodecIdBytes(v: CodecConfig): nat {
    MinimalLen(v.codecConfigId)
  }

  function ElementIdBytes(v: AudioElement): nat {
    MinimalLen(v.audioElementId) + MinimalLen(v.codecConfigId) + Total(v.audioSubstreamIds, MinimalLen)
  }

  function GainIdBytes(v: MixGainDefinition): nat {
    MinimalLen(v.definition.parameterId)
  }

  function MemberIdBytes(v: SubMixElement): nat {
    MinimalLen(v.audioElementId) + GainIdBytes(v.mixGain)
  }

  function SubMixIdBytes(v: SubMix): nat {
    Total(v.elements, MemberIdBytes) + GainIdBytes(v.outputMixGain)
  }

  function MixIdBytes(v: MixPresentation): nat {
    MinimalLen(v.mixPresentationId) + Total(v.subMixes, SubMixIdBytes)
  }

  // ------------------------------------------------------------ the same but for ids

  predicate SameElement(v: AudioElement, u: AudioElement) {
    && u == v.(audioElementId := u.audioElementId, codecConfigId := u.codecConfigId,
               audioSubstreamIds := u.audioSubstreamIds)
    && |u.audioSubstreamIds| == |v.audioSubstreamIds|
  }

  predicate SameMember(v: SubMixElement, u: SubMixElement) {
    u == v.(audioElementId := u.audioElementId, mixGain := Named(v.mixGain, u.mixGain.definition.parameterId))
  }

  predicate SameSubMix(v: SubMix, u: SubMix) {
    && |u.elements| == |v.elements| && (forall k | 0 <= k < |v.elements| :: SameMember(v.elements[k], u.elements[k]))
    && u.outputMixGain == Named(v.outputMixGain, u.outputMixGain.definition.parameterId)
    && u.layouts == v.layouts
  }

  predicate SameMix(v: MixPresentation, u: MixPresentation) {
    && u == v.(mixPresentationId := u.mixPresentationId, subMixes := u.subMixes)
    && |u.subMixes| == |v.subMixes| && forall k | 0 <= k < |v.subMixes| :: SameSubMix(v.subMixes[k], u.subMixes[k])
  }

  // ------------------------------------------------------------ growth of what is written

  /** What could be written at `w` can be written at `w1`, in `g` bytes more. */
  ghost predicate Grew(r: Result<BitSeq>, w: BitSeq, r1: Result<BitSeq>, w1: BitSeq, g: int) {
    r.Ok? ==> r1.Ok? && |r1.value| - |w1| == |r.value| - |w| + 8 * g
  }

  ghost predicate GrowsAt<T>(wr: ItemWriter<T>, x: T, y: T, g: int, w: BitSeq, w1: BitSeq) {
    Grew(wr(w, x), w, wr(w1, y), w1, g)
  }

  ghost predicate Grows<T>(wr: ItemWriter<T>, x: T, y: T, g: int) {
    forall w: BitSeq, w1: BitSeq :: GrowsAt(wr, x, y, g, w, w1)
  }

  lemma {:induction false} ManyGrew<T>(
      wr: ItemWriter<T>, xs: seq<T>, ys: seq<T>, cost: T -> nat, i: nat, w: BitSeq, w1: BitSeq)
    requires i <= |xs| == |ys|
    requires forall k | i <= k < |xs| :: Grows(wr, xs[k], ys[k], cost(ys[k]) - cost(xs[k]))
    ensures Grew(WMany(w, xs, i, wr), w, WMany(w1, ys, i, wr), w1, Total(ys[i..], cost) - Total(xs[i..], cost))
    decreases |xs| - i
  {
    if i < |xs| && wr(w, xs[i]).Ok? {
      assert GrowsAt(wr, xs[i], ys[i], cost(ys[i]) - cost(xs[i]), w, w1);
      ManyGrew(wr, xs, ys, cost, i + 1, wr(w, xs[i]).value, wr(w1, ys[i]).value);
      assert xs[i..][1..] == xs[i + 1..] && ys[i..][1..] == ys[i + 1..];
    }
  }

  lemma CountedGrew<T>(wr: ItemWriter<T>, xs: seq<T>, ys: seq<T>, cost: T -> nat, w: BitSeq, w1: BitSeq)
    requires |xs| == |ys|
    requires forall k | 0 <= k < |xs| :: Grows(wr, xs[k], ys[k], cost(ys[k]) - cost(xs[k]))
    ensures Grew(WCounted(w, xs, wr), w, WCounted(w1, ys, wr), w1, Total(ys, cost) - Total(xs, cost))
  {
    hide WMany, WLeb, Grows, Total;
    assert xs[0..] == xs && ys[0..] == ys;
    if |xs| < U32_LIMIT {
      ManyGrew(wr, xs, ys, cost, 0, WLeb(w, |xs|), WLeb(w1, |ys|));
    }
  }

  function Free<T>(x: T): nat {
    0
  }

  /** A list that stays as it is, of items that take the same anywhere. */
  lemma SteadyMany<T>(wr: ItemWriter<T>, xs: seq<T>, w: BitSeq, w1: BitSeq)
    requires forall k | 0 <= k < |xs| :: Grows(wr, xs[k], xs[k], 0)
    ensures Grew(WMany(w, xs, 0, wr), w, WMany(w1, xs, 0, wr), w1, 0)
  {
    hide WMany, Grows, Total;
    ManyGrew(wr, xs, xs, Free, 0, w, w1);
  }

  lemma SteadyCounted<T>(wr: ItemWriter<T>, xs: seq<T>, w: BitSeq, w1: BitSeq)
    requires forall k | 0 <= k < |xs| :: Grows(wr, xs[k], xs[k], 0)
    ensures Grew(WCounted(w, xs, wr), w, WCounted(w1, xs, wr), w1, 0)
  {
    hide WCounted, Grows, Total;
    CountedGrew(wr, xs, xs, Free, w, w1);
  }

  // ------------------------------------------------------------ codec configs

  lemma DecoderGrew(v: DecoderConfig, w: BitSeq, w1: BitSeq)
    ensures Grew(WDecoderConfig(w, v), w, WDecoderConfig(w1, v), w1, 0)
  {
    hide WU, WBool, WI16, WBytes, BitsOf, Pow2;
  }

  lemma CodecGrew(v: CodecConfig, id: u32)
    ensures var u := v.(codecConfigId := id);
            Grew(WCodecBody([], v), [], WCodecBody([], u), [], CodecIdBytes(u) - CodecIdBytes(v))
  {
    hide WLeb, WBytes, WI16, WDecoderConfig, MinimalLen;
    var a := WI16(WLeb(WBytes(WLeb([], v.codecConfigId), v.codecId), v.numSamplesPerFrame), v.audioRollDistance);
    var b := WI16(WLeb(WBytes(WLeb([], id), v.codecId), v.numSamplesPerFrame), v.audioRollDistance);
    DecoderGrew(v.decoderConfig, a, b);
  }

  // ------------------------------------------------------------ audio elements

  lemma LebGrows(x: u32, y: u32)
    ensures Grows(WLebItem, x, y, MinimalLen(y) - MinimalLen(x))
  {
    hide WLeb, MinimalLen;
    var g := MinimalLen(y) - MinimalLen(x);
    forall w: BitSeq, w1: BitSeq ensures GrowsAt(WLebItem, x, y, g, w, w1) {
    }
  }

  lemma SizedGrew(bytes: seq<u8>, w: BitSeq, w1: BitSeq)
    ensures Grew(WSized(w, bytes), w, WSized(w1, bytes), w1, 0)
  {
    hide WLeb, WBytes;
  }

  lemma DefinitionGrew(v: ParamDefinition, id: u32, w: BitSeq, w1: BitSeq)
    ensures Grew(WParamDefinition(w, v), w, WParamDefinition(w1, v.(parameterId := id)), w1,
                 MinimalLen(id) - MinimalLen(v.parameterId))
  {
    hide WLeb, WU, WBool, WDurationFields, MinimalLen;
    var u := v.(parameterId := id);
    if WParamDefinition(w, v).Ok? && v.durationFields.Some? {
      var a := WU(WBool(WLeb(WLeb(w, v.parameterId), v.parameterRate), v.Mode()), v.reserved, 7).value;
      var b := WU(WBool(WLeb(WLeb(w1, id), v.parameterRate), v.Mode()), v.reserved, 7).value;
      DurationsGrew(v.durationFields.value, a, b);
    }
  }

  lemma DurationsGrew(v: DurationFields, w: BitSeq, w1: BitSeq)
    ensures Grew(WDurationFields(w, v), w, WDurationFields(w1, v), w1, 0)
  {
    hide WLeb, WCounted, MinimalLen, Grows;
    forall k | 0 <= k < |v.subblockDurations|
      ensures Grows(WLebItem, v.subblockDurations[k], v.subblockDurations[k], 0)
    {
      LebGrows(v.subblockDurations[k], v.subblockDurations[k]);
    }
    var a := WLeb(WLeb(w, v.duration), v.constantSubblockDuration);
    var b := WLeb(WLeb(w1, v.duration), v.constantSubblockDuration);
    SteadyCounted(WLebItem, v.subblockDurations, a, b);
  }

  lemma ParamGrew(v: ElementParam, w: BitSeq, w1: BitSeq)
    ensures Grew(WElementParam(w, v), w, WElementParam(w1, v), w1, 0)
  {
    hide WLeb, WU, WParamDefinition, WSized, MinimalLen;
    var a, b := WLeb(w, v.DefinitionType()), WLeb(w1, v.DefinitionType());
    match v {
      case DemixingParam(definition, _, _, _, _) => DefinitionGrew(definition, definition.parameterId, a, b);
      case ReconGainParam(definition) => DefinitionGrew(definition, definition.parameterId, a, b);
      case ExtensionParam(_, bytes) => SizedGrew(bytes, a, b);
    }
  }

  lemma ParamGrows(v: ElementParam)
    ensures Grows(WElementParam, v, v, 0)
  {
    hide WElementParam;
    forall w: BitSeq, w1: BitSeq ensures GrowsAt(WElementParam, v, v, 0, w, w1) {
      ParamGrew(v, w, w1);
    }
  }

  lemma LayerGrows(v: ChannelLayer)
    ensures Grows(WChannelLayer, v, v, 0)
  {
    hide WU, WLayerHead, WOutputGain;
    forall w: BitSeq, w1: BitSeq ensures GrowsAt(WChannelLayer, v, v, 0, w, w1) {
      LayerPartsGrew(v, w, w1);
    }
  }

  lemma LayerPartsGrew(v: ChannelLayer, w: BitSeq, w1: BitSeq)
    ensures WLayerHead(w, v).Ok? ==> WLayerHead(w1, v).Ok?
    ensures forall a: BitSeq, b: BitSeq | v.outputGain.Some? && WOutputGain(a, v.outputGain.value).Ok? ::
              WOutputGain(b, v.outputGain.value).Ok?
  {
    hide WU, WI16, WBool;
  }

  lemma EntryGrows(x: i16)
    ensures Grows(WEntry, x, x, 0)
  {
    hide WI16;
    forall w: BitSeq, w1: BitSeq ensures GrowsAt(WEntry, x, x, 0, w, w1) {
    }
  }

  lemma TypeGrew(v: ElementType, w: BitSeq, w1: BitSeq)
    ensures Grew(WElementType(w, v), w, WElementType(w1, v), w1, 0)
  {
    hide WU, WLeb, WBytes, WMany, Grows, MatrixLen, Pow2;
    match v
    case ChannelBased(reserved, layers) =>
      forall k | 0 <= k < |layers| ensures Grows(WChannelLayer, layers[k], layers[k], 0) {
        LayerGrows(layers[k]);
      }
      if WU(w, |layers|, 3).Ok? && WU(WU(w, |layers|, 3).value, reserved, 5).Ok? {
        SteadyMany(WChannelLayer, layers, WU(WU(w, |layers|, 3).value, reserved, 5).value,
                   WU(WU(w1, |layers|, 3).value, reserved, 5).value);
      }
    case SceneBased(config) => AmbisonicsGrew(config, w, w1);
    case ReservedType(_, _) =>
  }

  lemma AmbisonicsGrew(v: AmbisonicsConfig, w: BitSeq, w1: BitSeq)
    ensures Grew(WAmbisonics(w, v), w, WAmbisonics(w1, v), w1, 0)
  {
    hide WU, WLeb, WBytes, WMany, Grows, MatrixLen, Pow2, MinimalLen;
    match v
    case ProjectionMode(channels, substreams, coupled, matrix) =>
      forall k | 0 <= k < |matrix| ensures Grows(WEntry, matrix[k], matrix[k], 0) {
        EntryGrows(matrix[k]);
      }
      if WAmbisonics(w, v).Ok? {
        var a := WU(WU(WU(WLeb(w, 1), channels, 8).value, substreams, 8).value, coupled, 8).value;
        var b := WU(WU(WU(WLeb(w1, 1), channels, 8).value, substreams, 8).value, coupled, 8).value;
        SteadyMany(WEntry, matrix, a, b);
      }
    case _ =>
  }

  lemma ElementGrew(v: AudioElement, u: AudioElement)
    requires SameElement(v, u)
    ensures Grew(WElementBody([], v), [], WElementBody([], u), [], ElementIdBytes(u) - ElementIdBytes(v))
  {
    hide WLeb, WU, WCounted, WElementType, Grows, MinimalLen, Total, WElementParam, Pow2;
    if WElementBody([], v).Ok? {
      var a := WLeb(WU(WU(WLeb([], v.audioElementId), v.elementType.Value(), 3).value, v.reserved, 5).value,
                    v.codecConfigId);
      var b := WLeb(WU(WU(WLeb([], u.audioElementId), v.elementType.Value(), 3).value, v.reserved, 5).value,
                    u.codecConfigId);
      SubstreamsGrew(v.audioSubstreamIds, u.audioSubstreamIds, a, b);
      var c := WCounted(a, v.audioSubstreamIds, WLebItem).value;
      var e := WCounted(b, u.audioSubstreamIds, WLebItem).value;
      ParamsGrew(v.params, c, e);
      TypeGrew(v.elementType, WCounted(c, v.params, WElementParam).value, WCounted(e, v.params, WElementParam).value);
    }
  }

  lemma SubstreamsGrew(xs: seq<u32>, ys: seq<u32>, w: BitSeq, w1: BitSeq)
    requires |xs| == |ys|
    ensures Grew(WCounted(w, xs, WLebItem), w, WCounted(w1, ys, WLebItem), w1,
                 Total(ys, MinimalLen) - Total(xs, MinimalLen))
  {
    hide WCounted, Grows, Total, MinimalLen;
    forall k | 0 <= k < |xs| ensures Grows(WLebItem, xs[k], ys[k], MinimalLen(ys[k]) - MinimalLen(xs[k])) {
      LebGrows(xs[k], ys[k]);
    }
    CountedGrew(WLebItem, xs, ys, MinimalLen, w, w1);
  }

  lemma ParamsGrew(params: seq<ElementParam>, w: BitSeq, w1: BitSeq)
    ensures Grew(WCounted(w, params, WElementParam), w, WCounted(w1, params, WElementParam), w1, 0)
  {
    hide WCounted, Grows, WElementParam;
    forall k | 0 <= k < |params| ensures Grows(WElementParam, params[k], params[k], 0) {
      ParamGrows(params[k]);
    }
    SteadyCounted(WElementParam, params, w, w1);
  }

  // ------------------------------------------------------------ mix presentations

  lemma TextGrows(x: seq<u8>)
    ensures Grows(WString, x, x, 0)
  {
    hide WBytes, BitsOf;
    forall w: BitSeq, w1: BitSeq ensures GrowsAt(WString, x, x, 0, w, w1) {
    }
  }

  lemma TextsGrew(xs: seq<seq<u8>>, w: BitSeq, w1: BitSeq)
    ensures Grew(WMany(w, xs, 0, WString), w, WMany(w1, xs, 0, WString), w1, 0)
    ensures Grew(WCounted(w, xs, WString), w, WCounted(w1, xs, WString), w1, 0)
  {
    hide WMany, WCounted, Grows;
    forall k | 0 <= k < |xs| ensures Grows(WString, xs[k], xs[k], 0) {
      TextGrows(xs[k]);
    }
    SteadyMany(WString, xs, w, w1);
    SteadyCounted(WString, xs, w, w1);
  }

  lemma GainGrew(v: MixGainDefinition, id: u32, w: BitSeq, w1: BitSeq)
    ensures Grew(WMixGainDefinition(w, v), w, WMixGainDefinition(w1, Named(v, id)), w1,
                 GainIdBytes(Named(v, id)) - GainIdBytes(v))
  {
    hide WParamDefinition, WI16, MinimalLen;
    DefinitionGrew(v.definition, id, w, w1);
  }

  lemma RenderingGrew(v: RenderingConfig, w: BitSeq, w1: BitSeq)
    ensures Grew(WRendering(w, v), w, WRendering(w1, v), w1, 0)
  {
    hide WU, WSized;
    if WRendering(w, v).Ok? {
      SizedGrew(v.extension, WU(WU(w, v.mode.Value(), 2).value, v.reserved, 6).value,
                WU(WU(w1, v.mode.Value(), 2).value, v.reserved, 6).value);
    }
  }

  lemma MemberGrew(v: SubMixElement, u: SubMixElement, w: BitSeq, w1: BitSeq)
    requires SameMember(v, u)
    ensures Grew(WSubMixElement(w, v), w, WSubMixElement(w1, u), w1, MemberIdBytes(u) - MemberIdBytes(v))
  {
    hide WLeb, WMany, WRendering, WMixGainDefinition, MinimalLen;
    var a, b := WLeb(w, v.audioElementId), WLeb(w1, u.audioElementId);
    TextsGrew(v.annotations, a, b);
    if WMany(a, v.annotations, 0, WString).Ok? {
      var c, e := WMany(a, v.annotations, 0, WString).value, WMany(b, v.annotations, 0, WString).value;
      RenderingGrew(v.rendering, c, e);
      if WRendering(c, v.rendering).Ok? {
        GainGrew(v.mixGain, u.mixGain.definition.parameterId, WRendering(c, v.rendering).value,
                 WRendering(e, v.rendering).value);
      }
    }
  }

  lemma MemberGrows(v: SubMixElement, u: SubMixElement)
    requires SameMember(v, u)
    ensures Grows(WSubMixElement, v, u, MemberIdBytes(u) - MemberIdBytes(v))
  {
    hide WSubMixElement, MemberIdBytes, SameMember;
    var g := MemberIdBytes(u) - MemberIdBytes(v);
    forall w: BitSeq, w1: BitSeq ensures GrowsAt(WSubMixElement, v, u, g, w, w1) {
      MemberGrew(v, u, w, w1);
    }
  }

  lemma AnchorGrows(v: AnchorElement)
    ensures Grows(WAnchor, v, v, 0)
  {
    hide WU, WI16;
    forall w: BitSeq, w1: BitSeq ensures GrowsAt(WAnchor, v, v, 0, w, w1) {
    }
  }

  lemma AnchorsGrew(v: seq<AnchorElement>, w: BitSeq, w1: BitSeq)
    ensures Grew(WAnchors(w, v), w, WAnchors(w1, v), w1, 0)
  {
    hide WU, WMany, Grows;
    forall k | 0 <= k < |v| ensures Grows(WAnchor, v[k], v[k], 0) {
      AnchorGrows(v[k]);
    }
    if |v| <= 255 && WU(w, |v|, 8).Ok? {
      SteadyMany(WAnchor, v, WU(w, |v|, 8).value, WU(w1, |v|, 8).value);
    }
  }

  lemma LoudnessHeadGrew(v: Loudness, w: BitSeq, w1: BitSeq)
    ensures Grew(WLoudnessHead(w, v), w, WLoudnessHead(w1, v), w1, 0)
  {
    hide WU, WI16;
  }

  lemma LoudnessGrew(v: Loudness, w: BitSeq, w1: BitSeq)
    ensures Grew(WLoudness(w, v), w, WLoudness(w1, v), w1, 0)
  {
    hide WLoudnessHead, WAnchors, WSized, ExtensionFits;
    LoudnessHeadGrew(v, w, w1);
    if WLoudnessHead(w, v).Ok? {
      var a, b := WLoudnessHead(w, v).value, WLoudnessHead(w1, v).value;
      if v.anchored.Some? {
        AnchorsGrew(v.anchored.value, a, b);
        if WAnchors(a, v.anchored.value).Ok? {
          a, b := WAnchors(a, v.anchored.value).value, WAnchors(b, v.anchored.value).value;
        }
      }
      if v.extension.Some? {
        SizedGrew(v.extension.value.bytes, a, b);
      }
    }
  }

  lemma LayoutGrows(v: LayoutWithLoudness)
    ensures Grows(WMixLayout, v, v, 0)
  {
    hide WLayoutSelector, WLoudness;
    forall w: BitSeq, w1: BitSeq ensures GrowsAt(WMixLayout, v, v, 0, w, w1) {
      SelectorGrew(v, w, w1);
      if WLayoutSelector(w, v).Ok? {
        LoudnessGrew(v.loudness, WLayoutSelector(w, v).value, WLayoutSelector(w1, v).value);
      }
    }
  }

  lemma SelectorGrew(v: LayoutWithLoudness, w: BitSeq, w1: BitSeq)
    ensures Grew(WLayoutSelector(w, v), w, WLayoutSelector(w1, v), w1, 0)
  {
    hide WU;
  }

  lemma MembersGrew(xs: seq<SubMixElement>, ys: seq<SubMixElement>, w: BitSeq, w1: BitSeq)
    requires |xs| == |ys| && forall k | 0 <= k < |xs| :: SameMember(xs[k], ys[k])
    ensures Grew(WCounted(w, xs, WSubMixElement), w, WCounted(w1, ys, WSubMixElement), w1,
                 Total(ys, MemberIdBytes) - Total(xs, MemberIdBytes))
  {
    hide WCounted, Grows, Total, MemberIdBytes, SameMember, WSubMixElement;
    forall k | 0 <= k < |xs| ensures Grows(WSubMixElement, xs[k], ys[k], MemberIdBytes(ys[k]) - MemberIdBytes(xs[k])) {
      MemberGrows(xs[k], ys[k]);
    }
    CountedGrew(WSubMixElement, xs, ys, MemberIdBytes, w, w1);
  }

  lemma LayoutsGrew(xs: seq<LayoutWithLoudness>, w: BitSeq, w1: BitSeq)
    ensures Grew(WCounted(w, xs, WMixLayout), w, WCounted(w1, xs, WMixLayout), w1, 0)
  {
    hide WCounted, Grows, WMixLayout;
    forall k | 0 <= k < |xs| ensures Grows(WMixLayout, xs[k], xs[k], 0) {
      LayoutGrows(xs[k]);
    }
    SteadyCounted(WMixLayout, xs, w, w1);
  }

  lemma SubMixGrew(v: SubMix, u: SubMix, w: BitSeq, w1: BitSeq)
    requires SameSubMix(v, u)
    ensures Grew(WSubMix(w, v), w, WSubMix(w1, u), w1, SubMixIdBytes(u) - SubMixIdBytes(v))
  {
    hide WCounted, WMixGainDefinition, WMixLayout, WSubMixElement, Total, GainIdBytes, SameMember;
    MembersGrew(v.elements, u.elements, w, w1);
    if WCounted(w, v.elements, WSubMixElement).Ok? {
      var a, b := WCounted(w, v.elements, WSubMixElement).value, WCounted(w1, u.elements, WSubMixElement).value;
      GainGrew(v.outputMixGain, u.outputMixGain.definition.parameterId, a, b);
      if WMixGainDefinition(a, v.outputMixGain).Ok? {
        LayoutsGrew(v.layouts, WMixGainDefinition(a, v.outputMixGain).value,
                    WMixGainDefinition(b, u.outputMixGain).value);
      }
    }
  }

  lemma SubMixGrows(v: SubMix, u: SubMix)
    requires SameSubMix(v, u)
    ensures Grows(WSubMix, v, u, SubMixIdBytes(u) - SubMixIdBytes(v))
  {
    hide WSubMix, SubMixIdBytes, SameSubMix;
    var g := SubMixIdBytes(u) - SubMixIdBytes(v);
    forall w: BitSeq, w1: BitSeq ensures GrowsAt(WSubMix, v, u, g, w, w1) {
      SubMixGrew(v, u, w, w1);
    }
  }

  lemma SubMixesGrew(xs: seq<SubMix>, ys: seq<SubMix>, w: BitSeq, w1: BitSeq)
    requires |xs| == |ys| && forall k | 0 <= k < |xs| :: SameSubMix(xs[k], ys[k])
    ensures Grew(WCounted(w, xs, WSubMix), w, WCounted(w1, ys, WSubMix), w1,
                 Total(ys, SubMixIdBytes) - Total(xs, SubMixIdBytes))
  {
    hide WCounted, Grows, Total, SubMixIdBytes, SameSubMix, WSubMix;
    forall k | 0 <= k < |xs| ensures Grows(WSubMix, xs[k], ys[k], SubMixIdBytes(ys[k]) - SubMixIdBytes(xs[k])) {
      SubMixGrows(xs[k], ys[k]);
    }
    CountedGrew(WSubMix, xs, ys, SubMixIdBytes, w, w1);
  }

  lemma MixGrew(v: MixPresentation, u: MixPresentation)
    requires SameMix(v, u)
    ensures Grew(WMixBody([], v), [], WMixBody([], u), [], MixIdBytes(u) - MixIdBytes(v))
  {
    hide WLeb, WCounted, WMany, WSubMix, Total, MinimalLen, WString;
    if WMixBody([], v).Ok? {
      SameAnnotations(v, u);
      var a, b := WLeb([], v.mixPresentationId), WLeb([], u.mixPresentationId);
      TextsGrew(v.annotationsLanguage, a, b);
      var c, e := WCounted(a, v.annotationsLanguage, WString).value, WCounted(b, v.annotationsLanguage, WString).value;
      TextsGrew(v.presentationAnnotations, c, e);
      SubMixesGrew(v.subMixes, u.subMixes, WMany(c, v.presentationAnnotations, 0, WString).value,
                   WMany(e, v.presentationAnnotations, 0, WString).value);
    }
  }

  lemma SameAnnotations(v: MixPresentation, u: MixPresentation)
    requires SameMix(v, u) && AnnotationCountsMatch(v)
    ensures AnnotationCountsMatch(u)
  {
    forall s | s in u.subMixes ensures SubMixAnnotated(s, |u.annotationsLanguage|) {
      var k :| 0 <= k < |u.subMixes| && u.subMixes[k] == s;
      assert SameSubMix(v.subMixes[k], s) && v.subMixes[k] in v.subMixes;
      forall element | element in s.elements ensures |element.annotations| == |u.annotationsLanguage| {
        var j :| 0 <= j < |s.elements| && s.elements[j] == element;
        assert SameMember(v.subMixes[k].elements[j], element) && v.subMixes[k].elements[j] in v.subMixes[k].elements;
      }
    }
  }

  // ------------------------------------------------------------ the descriptor OBUs

  /** `obu_size` of a descriptor, as it is. */
  function CodecBytes(v: CodecConfig): nat {
    BodyBytes(WCodecBody([], v)) + |v.trailing|
  }

  function ElementBytes(v: AudioElement): nat {
    BodyBytes(WElementBody([], v)) + |v.trailing|
  }

  function MixBytes(v: MixPresentation): nat {
    BodyBytes(WMixBody([], v)) + |v.trailing|
  }

  /** Written if its size fits, and refused for nothing else. */
  ghost predicate SizeDecides(o: SequenceObu, size: int) {
    && (WSeqObu([], [], o).Ok? <==> Fits(size))
    && (WSeqObu([], [], o).Err? ==> WSeqObu([], [], o) == Err(ObuTooLarge))
  }

  lemma FramedDecides(t: ObuType, body: Result<BitSeq>, trailing: seq<u8>)
    requires body.Ok? && |body.value| % 8 == 0 && !t.ReservedObu?
    ensures var r := WObuWith([], ObuHeader.New(t), WithTrailing(body, []), trailing);
            (r.Ok? <==> Fits(BodyBytes(body) + |trailing|)) && (r.Err? ==> r == Err(ObuTooLarge))
  {
    hide WObuWith, Fits;
    Untrailed(body);
    assert WAfterSize([], ObuHeader.New(t)) == Ok([]);
    ObuFits([], ObuHeader.New(t), body, trailing);
  }

  /** What was framed was made of a whole number of bytes and was under the ceiling. */
  lemma FramedWas(t: ObuType, body: Result<BitSeq>, trailing: seq<u8>)
    requires WObuWith([], ObuHeader.New(t), WithTrailing(body, []), trailing).Ok? && !t.ReservedObu?
    ensures body.Ok? && |body.value| % 8 == 0 && Fits(BodyBytes(body) + |trailing|)
  {
    hide WObuWith, Fits;
    Untrailed(body);
    BodyThenTrailing([], ObuHeader.New(t), body, trailing);
    FramedDecides(t, body, trailing);
  }

  lemma WholeGrowth(a: int, b: int, g: int)
    requires a % 8 == 0 && b == a + 8 * g
    ensures b % 8 == 0 && b / 8 == a / 8 + g
  {
  }

  lemma CodecDecides(v: CodecConfig, id: u32)
    requires WSeqObu([], [], FlatCodec(v)).Ok?
    ensures var u := v.(codecConfigId := id);
            SizeDecides(FlatCodec(u), CodecBytes(v) + CodecIdBytes(u) - CodecIdBytes(v))
    ensures Fits(CodecBytes(v))
  {
    hide WObuWith, WLeb, WDecoderConfig, Fits, CodecIdBytes;
    var u := v.(codecConfigId := id);
    var body, grown := WCodecBody([], v), WCodecBody([], u);
    FramedWas(CodecConfigObu, body, v.trailing);
    CodecGrew(v, id);
    WholeGrowth(|body.value|, |grown.value|, CodecIdBytes(u) - CodecIdBytes(v));
    FramedDecides(CodecConfigObu, grown, v.trailing);
  }

  lemma ElementDecides(v: AudioElement, u: AudioElement)
    requires WSeqObu([], [], FlatElement(v)).Ok? && SameElement(v, u)
    ensures SizeDecides(FlatElement(u), ElementBytes(v) + ElementIdBytes(u) - ElementIdBytes(v))
    ensures Fits(ElementBytes(v))
  {
    hide WObuWith, WLeb, WU, WCounted, WElementType, Fits, ElementIdBytes;
    var body, grown := WElementBody([], v), WElementBody([], u);
    FramedWas(AudioElementObu, body, v.trailing);
    ElementGrew(v, u);
    WholeGrowth(|body.value|, |grown.value|, ElementIdBytes(u) - ElementIdBytes(v));
    FramedDecides(AudioElementObu, grown, v.trailing);
  }

  lemma MixDecides(v: MixPresentation, u: MixPresentation)
    requires WSeqObu([], [], FlatMix(v)).Ok? && SameMix(v, u)
    ensures SizeDecides(FlatMix(u), MixBytes(v) + MixIdBytes(u) - MixIdBytes(v))
    ensures Fits(MixBytes(v))
  {
    hide WObuWith, WLeb, WCounted, WMany, Fits, MixIdBytes;
    var body, grown := WMixBody([], v), WMixBody([], u);
    FramedWas(MixPresentationObu, body, v.trailing);
    MixGrew(v, u);
    WholeGrowth(|body.value|, |grown.value|, MixIdBytes(u) - MixIdBytes(v));
    FramedDecides(MixPresentationObu, grown, v.trailing);
  }

  lemma HeaderDecides(profile: u8)
    ensures WSeqObu([], [], FlatHeader(IaSequenceHeader(IA_CODE, profile, profile, []))).Ok?
  {
    hide WObuWith, WU, Pow2;
    PowersOfTwo();
    var v := IaSequenceHeader(IA_CODE, profile, profile, []);
    FramedDecides(IaSequenceHeaderObu, WHeaderBody([], v), []);
  }

  // ------------------------------------------------------------ the whole prologue

  predicate Every(s: seq<SequenceObu>, p: SequenceObu -> bool) {
    forall k | 0 <= k < |s| :: p(s[k])
  }

  predicate EveryCodec(set_: DescriptorSet, p: SequenceObu -> bool) {
    forall i | 0 <= i < |set_.codecConfigs| :: p(FlatCodec(set_.codecConfigs[i]))
  }

  predicate EveryElement(set_: DescriptorSet, p: SequenceObu -> bool) {
    forall i | 0 <= i < |set_.audioElements| :: p(FlatElement(set_.audioElements[i]))
  }

  predicate EveryMix(set_: DescriptorSet, p: SequenceObu -> bool) {
    forall i | 0 <= i < |set_.mixPresentations| :: p(FlatMix(set_.mixPresentations[i]))
  }

  predicate EachPart(set_: DescriptorSet, p: SequenceObu -> bool) {
    p(FlatHeader(set_.sequenceHeader)) && EveryCodec(set_, p) && EveryElement(set_, p) && EveryMix(set_, p)
  }

  lemma {:induction false} MappedEach<T>(f: T -> SequenceObu, xs: seq<T>, ys: seq<T>, p: SequenceObu -> bool)
    requires forall x :: x in xs <==> x in ys
    ensures (forall i | 0 <= i < |ys| :: p(f(ys[i]))) <==> Every(Map(f, xs), p)
  {
    if Every(Map(f, xs), p) {
      forall i | 0 <= i < |ys| ensures p(f(ys[i])) {
        assert ys[i] in xs;
        var k :| 0 <= k < |xs| && xs[k] == ys[i];
        assert p(Map(f, xs)[k]);
      }
    }
    if forall i | 0 <= i < |ys| :: p(f(ys[i])) {
      forall k | 0 <= k < |xs| ensures p(Map(f, xs)[k]) {
        assert xs[k] in ys;
        var i :| 0 <= i < |ys| && ys[i] == xs[k];
        assert p(f(ys[i]));
      }
    }
  }

  lemma CodecParts(set_: DescriptorSet, p: SequenceObu -> bool)
    ensures EveryCodec(set_, p) <==> Every(Map(FlatCodec, SortedCodecs(set_)), p)
  {
    hide Sorted, Map, Every;
    SortedIsStable(set_.codecConfigs, (c: CodecConfig) => c.codecConfigId, 0);
    MappedEach(FlatCodec, SortedCodecs(set_), set_.codecConfigs, p);
  }

  lemma ElementParts(set_: DescriptorSet, p: SequenceObu -> bool)
    ensures EveryElement(set_, p) <==> Every(Map(FlatElement, SortedElements(set_)), p)
  {
    hide Sorted, Map, Every;
    SortedIsStable(set_.audioElements, (e: AudioElement) => e.audioElementId, 0);
    MappedEach(FlatElement, SortedElements(set_), set_.audioElements, p);
  }

  lemma MixParts(set_: DescriptorSet, p: SequenceObu -> bool)
    ensures EveryMix(set_, p) <==> Every(Map(FlatMix, set_.mixPresentations), p)
  {
    hide Map, Every;
    MappedEach(FlatMix, set_.mixPresentations, set_.mixPresentations, p);
  }

  /** Sorting moves descriptors and loses none. */
  lemma PartsOf(set_: DescriptorSet, p: SequenceObu -> bool)
    ensures EachPart(set_, p) <==> Every(FlatDescriptors(set_), p)
  {
    hide SortedCodecs, SortedElements, FlatHeader, Map, Every, EveryCodec, EveryElement, EveryMix;
    CodecParts(set_, p);
    ElementParts(set_, p);
    MixParts(set_, p);
    var h := [FlatHeader(set_.sequenceHeader)];
    var a, b := Map(FlatCodec, SortedCodecs(set_)), Map(FlatElement, SortedElements(set_));
    EveryJoin(h, a, p);
    EveryJoin(h + a, b, p);
    EveryJoin(h + a + b, Map(FlatMix, set_.mixPresentations), p);
    EveryOne(FlatHeader(set_.sequenceHeader), p);
  }

  lemma EveryJoin(a: seq<SequenceObu>, b: seq<SequenceObu>, p: SequenceObu -> bool)
    ensures Every(a + b, p) <==> Every(a, p) && Every(b, p)
  {
    assert forall k | 0 <= k < |a| :: (a + b)[k] == a[k];
    assert forall k | 0 <= k < |b| :: (a + b)[|a| + k] == b[k];
  }

  lemma EveryOne(o: SequenceObu, p: SequenceObu -> bool)
    ensures Every([o], p) <==> p(o)
  {
    assert [o][0] == o;
  }

  lemma NoBlocks(set_: DescriptorSet)
    ensures OneKind(FlatDescriptors(set_))
  {
  }

  predicate WritesAlone(o: SequenceObu) {
    WSeqObu([], [], o).Ok?
  }

  /** A prologue is written exactly when each of its descriptors is. */
  lemma PrologueEach(set_: DescriptorSet)
    ensures WAll([], [], FlatDescriptors(set_)).Ok? <==> EachPart(set_, WritesAlone)
  {
    hide WAll, WSeqObu, FlatDescriptors, EachPart;
    NoBlocks(set_);
    AllAlone([], [], FlatDescriptors(set_));
    PartsOf(set_, WritesAlone);
  }

  predicate FailsForSize(o: SequenceObu) {
    WSeqObu([], [], o).Err? ==> WSeqObu([], [], o) == Err(ObuTooLarge)
  }

  lemma PrologueFailsForSize(set_: DescriptorSet)
    requires EachPart(set_, FailsForSize)
    ensures WAll([], [], FlatDescriptors(set_)).Err? ==> WAll([], [], FlatDescriptors(set_)) == Err(ObuTooLarge)
  {
    hide WAll, WSeqObu, FlatDescriptors, EachPart;
    NoBlocks(set_);
    AllAlone([], [], FlatDescriptors(set_));
    PartsOf(set_, FailsForSize);
    if WAll([], [], FlatDescriptors(set_)).Err? {
      var k :| 0 <= k < |FlatDescriptors(set_)|
               && WSeqObu([], [], FlatDescriptors(set_)[k]) == Err(WAll([], [], FlatDescriptors(set_)).error);
      assert FailsForSize(FlatDescriptors(set_)[k]);
    }
  }

  // ------------------------------------------------------------ what lowering changes

  predicate SameSizes(d: Declared, set_: DescriptorSet) {
    && |set_.codecConfigs| == |d.codecConfigs| && |set_.audioElements| == |d.audioElements|
    && |set_.mixPresentations| == |d.mixPresentations|
  }

  /**
    Under the ceiling once the ids are the allocated ones: for each declaration, the size it was rehearsed with,
    and what its ids take more than those of the template.
  */
  predicate StartFits(d: Declared, set_: DescriptorSet)
    requires SameSizes(d, set_)
  {
    && (forall i | 0 <= i < |d.codecConfigs| ::
          var v := d.codecConfigs[i];
          Fits(CodecBytes(v) + CodecIdBytes(set_.codecConfigs[i]) - CodecIdBytes(v)))
    && (forall i | 0 <= i < |d.audioElements| ::
          var v := d.audioElements[i].element;
          Fits(ElementBytes(v) + ElementIdBytes(set_.audioElements[i]) - ElementIdBytes(v)))
    && (forall i | 0 <= i < |d.mixPresentations| ::
          var v := d.mixPresentations[i].presentation;
          Fits(MixBytes(v) + MixIdBytes(set_.mixPresentations[i]) - MixIdBytes(v)))
  }

  /** No descriptor needs more bytes for its ids than its template did. */
  predicate NoIdGrows(d: Declared, set_: DescriptorSet)
    requires SameSizes(d, set_)
  {
    && (forall i | 0 <= i < |d.codecConfigs| ::
          CodecIdBytes(set_.codecConfigs[i]) <= CodecIdBytes(d.codecConfigs[i]))
    && (forall i | 0 <= i < |d.audioElements| ::
          ElementIdBytes(set_.audioElements[i]) <= ElementIdBytes(d.audioElements[i].element))
    && (forall i | 0 <= i < |d.mixPresentations| ::
          MixIdBytes(set_.mixPresentations[i]) <= MixIdBytes(d.mixPresentations[i].presentation))
  }

  lemma LowersElement(d: Declared, e: ElementDeclaration, id: u32)
    requires CheckElement(d, e).Ok? && e.codecConfig.index < U32_LIMIT
    requires forall h | h in e.substreams :: h.index < U32_LIMIT
    ensures SameElement(e.element, LowerElement(e, id))
  {
    hide CheckElement;
    CheckedElement(d, e);
  }

  /** The one sub-mix of a lowered presentation: the template's, under the ids of its handles. */
  ghost predicate LoweredSubMix(v: MixDeclaration, u: MixPresentation) {
    && |u.subMixes| == |v.presentation.subMixes| == 1 && SameSubMix(v.presentation.subMixes[0], u.subMixes[0])
    && |v.audioElements| == |u.subMixes[0].elements| && |v.parameters| == |u.subMixes[0].elements| + 1
    && (forall k | 0 <= k < |u.subMixes[0].elements| ::
          && u.subMixes[0].elements[k].audioElementId == v.audioElements[k].index
          && u.subMixes[0].elements[k].mixGain.definition.parameterId == v.parameters[k].index)
    && u.subMixes[0].outputMixGain.definition.parameterId == v.parameters[|v.audioElements|].index
  }

  lemma LowersMix(d: Declared, v: MixDeclaration, id: u32)
    requires CheckMix(d, v).Ok? && |v.parameters| == GainCount(v.presentation.subMixes)
    requires |v.audioElements| == References(v.presentation.subMixes)
    requires forall h | h in v.audioElements :: h.index < U32_LIMIT
    requires forall h | h in v.parameters :: h.index < U32_LIMIT
    ensures SameMix(v.presentation, LowerMix(v, id)) && LoweredSubMix(v, LowerMix(v, id))
    ensures LowerMix(v, id).mixPresentationId == id
  {
    hide CheckMix, SetParameterIds, SubMixClean, MixClean, CheckLayout, ReferencedIds;
    CheckedMix(d, v);
    SetReferencesKeepsGains(v.presentation.subMixes, ElementIds(v.audioElements));
    var s := v.presentation.subMixes[0];
    assert v.presentation.subMixes == [s] && [s][1..] == [];
    var ids, names := ElementIds(v.audioElements), ParameterIdsOf(v.parameters);
    var referenced := s.(elements := Renamed(s.elements, ids));
    assert ids[..|s.elements|] == ids;
    assert SetReferences(v.presentation.subMixes, ids) == [referenced];
    NamedSubMix(referenced, names);
  }

  lemma TemplateParts(d: Declared)
    requires ValidateDeclarations(d).Ok?
    ensures forall i | 0 <= i < |d.codecConfigs| :: WritesAlone(FlatCodec(d.codecConfigs[i]))
    ensures forall i | 0 <= i < |d.audioElements| :: WritesAlone(FlatElement(d.audioElements[i].element))
    ensures forall i | 0 <= i < |d.mixPresentations| :: WritesAlone(FlatMix(d.mixPresentations[i].presentation))
  {
    hide ValidateDeclarations, CheckCodec, CheckParameter, CheckTimings, CheckElement, CheckMix, WAll, FlatDescriptors;
    hide WritesAlone, SubstreamUsed, FromDescriptors, CheckDefinition, FlatCodec, FlatElement, FlatMix, FlatHeader;
    Validated(d);
    RehearsalPassed(d);
    PrologueEach(Template(d));
    forall i | 0 <= i < |d.audioElements| ensures WritesAlone(FlatElement(d.audioElements[i].element)) {
      assert Template(d).audioElements[i] == d.audioElements[i].element;
    }
    forall i | 0 <= i < |d.mixPresentations| ensures WritesAlone(FlatMix(d.mixPresentations[i].presentation)) {
      assert Template(d).mixPresentations[i] == d.mixPresentations[i].presentation;
    }
  }

  lemma RehearsalPassed(d: Declared)
    requires CheckTogether(d).Ok?
    ensures WAll([], [], FlatDescriptors(Template(d))).Ok?
  {
    hide SubstreamUsed, FromDescriptors, CheckDefinition, FlatDescriptors, WAll;
  }

  lemma CodecLowered(d: Declared, i: nat)
    requires Frozen(d) && Allocatable(d) && HandlesResolve(d) && i < |d.codecConfigs|
    ensures CodecDecided(d.codecConfigs[i], LowerCodecs(d.codecConfigs)[i])
  {
    hide Frozen, HandlesResolve, SizeDecides, Fits, ValidateDeclarations, FlatCodec, CodecBytes, CodecIdBytes;
    hide WSeqObu;
    FrozenValidates(d);
    TemplateParts(d);
    assert WritesAlone(FlatCodec(d.codecConfigs[i]));
    CodecDecides(d.codecConfigs[i], i);
  }

  lemma ElementAt(d: Declared, i: nat)
    requires Allocatable(d) && HandlesResolve(d) && i < |d.audioElements|
    ensures var e := d.audioElements[i];
            && e.codecConfig.index < U32_LIMIT && (forall h | h in e.substreams :: h.index < U32_LIMIT)
            && LowerElements(d)[i] == LowerElement(e, i)
  {
    hide LowerElement, References, GainCount;
  }

  lemma MixAt(d: Declared, i: nat)
    requires Allocatable(d) && HandlesResolve(d) && i < |d.mixPresentations|
    ensures var v := d.mixPresentations[i];
            && |v.parameters| == GainCount(v.presentation.subMixes)
            && |v.audioElements| == References(v.presentation.subMixes)
            && (forall h | h in v.audioElements :: h.index < U32_LIMIT)
            && (forall h | h in v.parameters :: h.index < U32_LIMIT)
            && LowerMixes(d)[i] == LowerMix(v, i)
  {
    hide LowerMix, References, GainCount;
  }

  lemma ElementRehearsed(d: Declared, i: nat)
    requires ValidateDeclarations(d).Ok? && i < |d.audioElements|
    ensures CheckElement(d, d.audioElements[i]).Ok? && WritesAlone(FlatElement(d.audioElements[i].element))
  {
    hide ValidateDeclarations, CheckElement, WritesAlone, FlatElement, CheckMix, CheckCodec, CheckParameter;
    Validated(d);
    TemplateParts(d);
  }

  lemma MixRehearsed(d: Declared, i: nat)
    requires ValidateDeclarations(d).Ok? && i < |d.mixPresentations|
    ensures CheckMix(d, d.mixPresentations[i]).Ok? && WritesAlone(FlatMix(d.mixPresentations[i].presentation))
  {
    hide ValidateDeclarations, CheckElement, WritesAlone, FlatMix, CheckMix, CheckCodec, CheckParameter;
    Validated(d);
    TemplateParts(d);
  }

  lemma ElementLowered(d: Declared, i: nat)
    requires Frozen(d) && Allocatable(d) && HandlesResolve(d) && i < |d.audioElements|
    ensures ElementDecided(d.audioElements[i].element, LowerElements(d)[i])
  {
    hide Frozen, HandlesResolve, LowerElements, ValidateDeclarations, ElementBytes, ElementIdBytes, LowerElement;
    hide CheckElement, SameElement, SizeDecides, Fits, FlatElement, WSeqObu, CheckTopology, ElementClean;
    FrozenValidates(d);
    ElementRehearsed(d, i);
    ElementAt(d, i);
    LowersElement(d, d.audioElements[i], i);
    ElementDecides(d.audioElements[i].element, LowerElements(d)[i]);
  }

  lemma MixLowered(d: Declared, i: nat)
    requires Frozen(d) && Allocatable(d) && HandlesResolve(d) && i < |d.mixPresentations|
    ensures MixDecided(d.mixPresentations[i].presentation, LowerMixes(d)[i])
    ensures LoweredSubMix(d.mixPresentations[i], LowerMixes(d)[i]) && LowerMixes(d)[i].mixPresentationId == i
  {
    hide Frozen, HandlesResolve, LowerMixes, ValidateDeclarations, MixBytes, MixIdBytes, LowerMix, LoweredSubMix;
    hide CheckMix, References, GainCount, SameMix, SizeDecides, Fits, FlatMix, WSeqObu;
    FrozenValidates(d);
    MixRehearsed(d, i);
    MixAt(d, i);
    LowersMix(d, d.mixPresentations[i], i);
    MixDecides(d.mixPresentations[i].presentation, LowerMixes(d)[i]);
  }

  /** Each lowered descriptor, judged by the size of its rehearsal and the growth of its ids. */
  lemma LoweredDecide(d: Declared, profile: Profile)
    requires Frozen(d) && Allocatable(d) && HandlesResolve(d)
    ensures var set_ := DescriptorsOf(d, profile);
            && SameSizes(d, set_)
            && (forall i | 0 <= i < |d.codecConfigs| :: CodecDecided(d.codecConfigs[i], set_.codecConfigs[i]))
            && (forall i | 0 <= i < |d.audioElements| ::
                  ElementDecided(d.audioElements[i].element, set_.audioElements[i]))
            && (forall i | 0 <= i < |d.mixPresentations| ::
                  MixDecided(d.mixPresentations[i].presentation, set_.mixPresentations[i]))
  {
    hide Frozen, HandlesResolve, LowerElements, LowerMixes, LowerCodecs, CodecDecided, ElementDecided, MixDecided;
    forall i | 0 <= i < |d.codecConfigs| ensures CodecDecided(d.codecConfigs[i], LowerCodecs(d.codecConfigs)[i]) {
      CodecLowered(d, i);
    }
    forall i | 0 <= i < |d.audioElements| ensures ElementDecided(d.audioElements[i].element, LowerElements(d)[i]) {
      ElementLowered(d, i);
    }
    forall i | 0 <= i < |d.mixPresentations|
      ensures MixDecided(d.mixPresentations[i].presentation, LowerMixes(d)[i])
    {
      MixLowered(d, i);
    }
  }

  ghost predicate CodecDecided(v: CodecConfig, u: CodecConfig) {
    SizeDecides(FlatCodec(u), CodecBytes(v) + CodecIdBytes(u) - CodecIdBytes(v)) && Fits(CodecBytes(v))
  }

  ghost predicate ElementDecided(v: AudioElement, u: AudioElement) {
    SizeDecides(FlatElement(u), ElementBytes(v) + ElementIdBytes(u) - ElementIdBytes(v)) && Fits(ElementBytes(v))
  }

  ghost predicate MixDecided(v: MixPresentation, u: MixPresentation) {
    SizeDecides(FlatMix(u), MixBytes(v) + MixIdBytes(u) - MixIdBytes(v)) && Fits(MixBytes(v))
  }

  lemma FrozenStart(d: Declared, profile: Profile)
    requires Frozen(d) && Allocatable(d) && HandlesResolve(d)
    ensures var set_ := DescriptorsOf(d, profile);
            && SameSizes(d, set_)
            && (WAll([], [], FlatDescriptors(set_)).Ok? <==> StartFits(d, set_))
            && (WAll([], [], FlatDescriptors(set_)).Err? ==> WAll([], [], FlatDescriptors(set_)) == Err(ObuTooLarge))
            && (NoIdGrows(d, set_) ==> StartFits(d, set_))
  {
    hide Frozen, HandlesResolve, LowerElements, LowerMixes, WAll, FlatDescriptors, FlatCodec, FlatElement, FlatMix;
    hide CodecBytes, CodecIdBytes, ElementBytes, ElementIdBytes, MixBytes, MixIdBytes, FlatHeader, WSeqObu;
    var set_ := DescriptorsOf(d, profile);
    LoweredDecide(d, profile);
    HeaderDecides(profile.ToWire());
    PrologueEach(set_);
    PrologueFailsForSize(set_);
  }

  /**
    What a build leaves to chance. The rehearsal excludes every refusal of the prologue but one: under the
    allocated ids a descriptor may be over the ceiling. It is written if and only if each descriptor, at the
    size it was rehearsed with and with the growth of its ids, is under it; and always if no id grows.
  */
  lemma StartIsTheCeiling(d: Declared) returns (r: Declared)
    requires Build(d).Ok?
    ensures ResolveReferences(d) == Ok(r)
    ensures var set_ := Build(d).value.0.descriptors;
            && SameSizes(r, set_)
            && (WAll([], [], FlatDescriptors(set_)).Ok? <==> StartFits(r, set_))
            && (WAll([], [], FlatDescriptors(set_)).Err? ==> WAll([], [], FlatDescriptors(set_)) == Err(ObuTooLarge))
            && (NoIdGrows(r, set_) ==> StartFits(r, set_))
  {
    hide Build, Frozen, WAll, FlatDescriptors, StartFits, NoIdGrows, LowerElements, LowerMixes;
    var profile: Profile;
    r, profile := BuildFreezes(d);
    FrozenResolves(r);
    FrozenStart(r, profile);
  }

  // ------------------------------------------------------------ when no id can grow

  lemma {:induction false} TotalLeast<T>(xs: seq<T>, ys: seq<T>, cost: T -> nat)
    requires |xs| == |ys| && forall k | 0 <= k < |xs| :: cost(ys[k]) <= cost(xs[k])
    ensures Total(ys, cost) <= Total(xs, cost)
  {
    if xs != [] {
      TotalLeast(xs[1..], ys[1..], cost);
    }
  }

  /** The five lists of declarations are short enough for every allocated id to take one byte. */
  predicate Few(d: Declared) {
    && |d.codecConfigs| <= 128 && |d.audioElements| <= 128 && |d.mixPresentations| <= 128
    && |d.substreams| <= 128 && |d.parameters| <= 128
  }

  lemma FewElementIds(d: Declared, i: nat)
    requires Frozen(d) && Allocatable(d) && HandlesResolve(d) && i < |d.audioElements| && Few(d)
    ensures ElementIdBytes(LowerElements(d)[i]) <= ElementIdBytes(d.audioElements[i].element)
  {
    hide Frozen, HandlesResolve, LowerElements, ValidateDeclarations, CheckElement, WritesAlone, CheckTopology;
    hide ElementClean, Total;
    FrozenValidates(d);
    ElementRehearsed(d, i);
    ElementAt(d, i);
    CheckedElement(d, d.audioElements[i]);
    var xs, ys := d.audioElements[i].element.audioSubstreamIds, LowerElements(d)[i].audioSubstreamIds;
    forall k | 0 <= k < |xs| ensures MinimalLen(ys[k]) <= MinimalLen(xs[k]) {
      assert d.audioElements[i].substreams[k] in d.audioElements[i].substreams;
    }
    TotalLeast(xs, ys, MinimalLen);
  }

  lemma FewMixIds(d: Declared, i: nat)
    requires Frozen(d) && Allocatable(d) && HandlesResolve(d) && i < |d.mixPresentations| && Few(d)
    ensures MixIdBytes(LowerMixes(d)[i]) <= MixIdBytes(d.mixPresentations[i].presentation)
  {
    hide Frozen, HandlesResolve, LowerMixes, ValidateDeclarations, CheckMix, WritesAlone, MixDecided, SameMember;
    hide MixClean, CheckLayout, GainCount, References, SetReferences, Total;
    FrozenValidates(d);
    MixRehearsed(d, i);
    MixLowered(d, i);
    var v, u := d.mixPresentations[i], LowerMixes(d)[i];
    CheckedMix(d, v);
    assert ParametersKnown(d, v);
    var s, r := v.presentation.subMixes[0], u.subMixes[0];
    assert forall h | h in v.parameters :: KnownParameter(d, h);
    forall k | 0 <= k < |s.elements| ensures MemberIdBytes(r.elements[k]) <= MemberIdBytes(s.elements[k]) {
      assert v.audioElements[k] in v.audioElements && v.parameters[k] in v.parameters;
    }
    assert v.parameters[|v.audioElements|] in v.parameters;
    TotalLeast(s.elements, r.elements, MemberIdBytes);
    OneTotal(v.presentation.subMixes);
    OneTotal(u.subMixes);
  }

  lemma OneTotal(subMixes: seq<SubMix>)
    requires |subMixes| == 1
    ensures Total(subMixes, SubMixIdBytes) == SubMixIdBytes(subMixes[0])
  {
    assert subMixes[1..] == [];
  }

  /** With at most 128 declarations of each kind, a build that succeeds has a prologue that can be written. */
  lemma FewAlwaysStart(d: Declared)
    requires Build(d).Ok? && Few(d)
    ensures WAll([], [], FlatDescriptors(Build(d).value.0.descriptors)).Ok?
  {
    hide Build, Frozen, WAll, FlatDescriptors, StartFits, LowerElements, LowerMixes, ElementIdBytes, MixIdBytes;
    var r, profile := BuildFreezes(d);
    FrozenResolves(r);
    FrozenStart(r, profile);
    forall i | 0 <= i < |r.audioElements|
      ensures ElementIdBytes(LowerElements(r)[i]) <= ElementIdBytes(r.audioElements[i].element)
    {
      FewElementIds(r, i);
    }
    forall i | 0 <= i < |r.mixPresentations|
      ensures MixIdBytes(LowerMixes(r)[i]) <= MixIdBytes(r.mixPresentations[i].presentation)
    {
      FewMixIds(r, i);
    }
  }
}
