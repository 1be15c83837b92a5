/** The Audio Element payload: counted lists, parameter definitions, and three type-specific configs. */
module AudioElements {
  import opened Core
  import opened Bits
  import opened Leb128
  import opened Lists
  import opened Layouts
  import opened ParamDefinitions

  datatype OutputGain = OutputGain(flags: u8, reserved: u8, gain: i16)

  datatype ChannelLayer = ChannelLayer(
    layout: LoudspeakerLayout, outputGain: Option<OutputGain>, reconGainIsPresent: bool, reserved: u8,
    substreamCount: u8, coupledSubstreamCount: u8)

  datatype AmbisonicsConfig =
    | MonoMode(outputChannelCount: u8, substreamCount: u8, channelMapping: seq<u8>)
    | ProjectionMode(outputChannelCount: u8, substreamCount: u8, coupledSubstreamCount: u8, demixingMatrix: seq<i16>)
    | ReservedMode(mode: u32)
  {
    function Mode(): u32 {
      match this
      case MonoMode(_, _, _) => 0
      case ProjectionMode(_, _, _, _) => 1
      case ReservedMode(mode) => mode
    }
  }

  datatype ElementType =
    | ChannelBased(reserved: u8, layers: seq<ChannelLayer>)
    | SceneBased(config: AmbisonicsConfig)
    | ReservedType(value: u8, raw: seq<u8>)
  {
    function Value(): u8 {
      match this
      case ChannelBased(_, _) => 0
      case SceneBased(_) => 1
      case ReservedType(value, _) => value
    }
  }

  datatype ElementParam =
    | DemixingParam(definition: ParamDefinition, defaultDmixpMode: u8, defaultReserved: u8, defaultW: u8,
                    defaultWReserved: u8)
    | ReconGainParam(definition: ParamDefinition)
    | ExtensionParam(definitionType: u32, bytes: seq<u8>)
  {
    function DefinitionType(): u32 {
      match this
      case DemixingParam(_, _, _, _, _) => 1
      case ReconGainParam(_) => 2
      case ExtensionParam(t, _) => t
    }
  }

  datatype AudioElement = AudioElement(
    audioElementId: u32, reserved: u8, elementType: ElementType, codecConfigId: u32,
    audioSubstreamIds: seq<u32>, params: seq<ElementParam>, trailing: seq<u8>)

  // ------------------------------------------------------------ channel layers

  function WOutputGain(w: BitSeq, gain: OutputGain): (r: Result<BitSeq>)
    ensures r.Ok? ==> w <= r.value && |r.value| == |w| + 24
  {
    hide WU, WI16;
    var w :- WU(w, gain.flags, 6);
    var w :- WU(w, gain.reserved, 2);
    Ok(WI16(w, gain.gain))
  }

  function ROutputGain(d: BitSeq, p: nat): Result<(OutputGain, nat)> {
    var (flags, p) :- RU8(d, p, 6);
    var (reserved, p) :- RU8(d, p, 2);
    var (gain, p) :- RI16(d, p);
    Ok((OutputGain(flags, reserved, gain), p))
  }

  /** The three fixed bytes of a layer. */
  function WLayerHead(w: BitSeq, v: ChannelLayer): (r: Result<BitSeq>)
    ensures r.Ok? ==> w <= r.value && |r.value| == |w| + 24
  {
    hide WU, WBool;
    var w :- WU(w, v.layout.Value(), 4);
    var w :- WU(WBool(WBool(w, v.outputGain.Some?), v.reconGainIsPresent), v.reserved, 2);
    var w :- WU(w, v.substreamCount, 8);
    WU(w, v.coupledSubstreamCount, 8)
  }

  function WChannelLayer(w: BitSeq, v: ChannelLayer): (r: Result<BitSeq>)
    ensures r.Ok? ==> w <= r.value
    ensures r.Ok? ==>
              |r.value| == |w| + 24 + (if v.outputGain.Some? then 24 else 0) + (if v.layout.Expanded? then 8 else 0)
  {
    hide WLayerHead, WOutputGain, WU;
    var w :- WLayerHead(w, v);
    var w :- if v.outputGain.Some? then WOutputGain(w, v.outputGain.value) else Ok(w);
    if v.layout.Expanded? then WU(w, v.layout.expanded.Value(), 8) else Ok(w)
  }

  datatype LayerHead = LayerHead(
    layoutBits: u8, gated: bool, reconGain: bool, reserved: u8, substreams: u8, coupled: u8)

  function RLayerHead(d: BitSeq, p: nat): Result<(LayerHead, nat)> {
    var (layoutBits, p) :- RU8(d, p, 4);
    var (gated, p) :- RBool(d, p);
    var (reconGain, p) :- RBool(d, p);
    var (reserved, p) :- RU8(d, p, 2);
    var (substreams, p) :- RU8(d, p, 8);
    var (coupled, p) :- RU8(d, p, 8);
    Ok((LayerHead(layoutBits, gated, reconGain, reserved, substreams, coupled), p))
  }

  function RLayout(d: BitSeq, p: nat, layoutBits: u8): Result<(LoudspeakerLayout, nat)> {
    match LoudspeakerLayout.FromValue(layoutBits)
    case Some(layout) => Ok((layout, p))
    case None =>
      var (expanded, p) :- RU8(d, p, 8);
      Ok((Expanded(ExpandedLayout.FromValue(expanded)), p))
  }

  function RChannelLayer(d: BitSeq, p: nat): Result<(ChannelLayer, nat)> {
    var (head, p) :- RLayerHead(d, p);
    var (gain, p) :-
      if head.gated then
        var (gain, p) :- ROutputGain(d, p);
        Ok((Some(gain), p))
      else Ok((None, p));
    var (layout, p) :- RLayout(d, p, head.layoutBits);
    Ok((ChannelLayer(layout, gain, head.reconGain, head.reserved, head.substreams, head.coupled), p))
  }

  function WScalable(w: BitSeq, reserved: u8, layers: seq<ChannelLayer>): Result<BitSeq> {
    var w :- WU(w, |layers|, 3);
    var w :- WU(w, reserved, 5);
    WMany(w, layers, 0, WChannelLayer)
  }

  function RScalable(d: BitSeq, p: nat): Result<(ElementType, nat)> {
    var (count, p) :- RU8(d, p, 3);
    var (reserved, p) :- RU8(d, p, 5);
    if count > Remaining(d, p) then Err(UnexpectedEndOfInput)
    else
      var (layers, p) :- RMany(d, p, count, [], RChannelLayer);
      Ok((ChannelBased(reserved, layers), p))
  }

  // ---------------------------------------------------------------- ambisonics

  function WEntry(w: BitSeq, entry: i16): Result<BitSeq> {
    Ok(WI16(w, entry))
  }

  function MatrixLen(channels: u8, substreams: u8, coupled: u8): nat {
    (substreams + coupled) * channels
  }

  function WAmbisonics(w: BitSeq, v: AmbisonicsConfig): Result<BitSeq> {
    hide WLeb, MatrixLen;
    match v
    case ReservedMode(mode) => if mode <= 1 then Err(ReservedAliasesDefinedValue) else Ok(WLeb(w, mode))
    case MonoMode(channels, substreams, mapping) =>
      if |mapping| != channels then Err(GatedFieldMismatch)
      else
        var w :- WU(WLeb(w, 0), channels, 8);
        var w :- WU(w, substreams, 8);
        Ok(WBytes(w, mapping))
    case ProjectionMode(channels, substreams, coupled, matrix) =>
      if |matrix| != MatrixLen(channels, substreams, coupled) then Err(GatedFieldMismatch)
      else
        var w :- WU(WLeb(w, 1), channels, 8);
        var w :- WU(w, substreams, 8);
        var w :- WU(w, coupled, 8);
        WMany(w, matrix, 0, WEntry)
  }

  function RAmbisonics(d: BitSeq, p: nat): Result<(AmbisonicsConfig, nat)> {
    hide RLeb, MatrixLen;
    var (mode, p) :- RLeb(d, p);
    if mode >= 2 then Ok((ReservedMode(mode), p))
    else
      var (channels, p) :- RU8(d, p, 8);
      var (substreams, p) :- RU8(d, p, 8);
      if mode == 0 then
        if channels > Remaining(d, p) then Err(UnexpectedEndOfInput)
        else
          var (mapping, p) :- RSpan(d, p, channels);
          Ok((MonoMode(channels, substreams, mapping), p))
      else
        var (coupled, p) :- RU8(d, p, 8);
        var entries := MatrixLen(channels, substreams, coupled);
        if 2 * entries > Remaining(d, p) then Err(UnexpectedEndOfInput)
        else
          var (matrix, p) :- RMany(d, p, entries, [], RI16);
          Ok((ProjectionMode(channels, substreams, coupled, matrix), p))
  }

  // ---------------------------------------------------------------- parameters

  function WDemixingDefaults(w: BitSeq, v: ElementParam): Result<BitSeq>
    requires v.DemixingParam?
  {
    var w :- WU(w, v.defaultDmixpMode, 3);
    var w :- WU(w, v.defaultReserved, 5);
    var w :- WU(w, v.defaultW, 4);
    WU(w, v.defaultWReserved, 4)
  }

  function RDemixingParam(d: BitSeq, p: nat): Result<(ElementParam, nat)> {
    var (definition, p) :- RParamDefinition(d, p);
    var (mode, p) :- RU8(d, p, 3);
    var (reserved, p) :- RU8(d, p, 5);
    var (defaultW, p) :- RU8(d, p, 4);
    var (reservedW, p) :- RU8(d, p, 4);
    Ok((DemixingParam(definition, mode, reserved, defaultW, reservedW), p))
  }

  function WElementParam(w: BitSeq, v: ElementParam): Result<BitSeq> {
    hide WLeb;
    if v.ExtensionParam? && (v.definitionType == 1 || v.definitionType == 2) then Err(ReservedAliasesDefinedValue)
    else
      var w := WLeb(w, v.DefinitionType());
      match v
      case DemixingParam(definition, _, _, _, _) =>
        var w :- WParamDefinition(w, definition);
        WDemixingDefaults(w, v)
      case ReconGainParam(definition) => WParamDefinition(w, definition)
      case ExtensionParam(_, bytes) => WSized(w, bytes)
  }

  function RElementParam(d: BitSeq, p: nat): Result<(ElementParam, nat)> {
    hide RLeb;
    var (t, p) :- RLeb(d, p);
    if t == 1 then RDemixingParam(d, p)
    else if t == 2 then
      var (definition, p) :- RParamDefinition(d, p);
      Ok((ReconGainParam(definition), p))
    else
      var (bytes, p) :- RSized(d, p);
      Ok((ExtensionParam(t, bytes), p))
  }

  // ----------------------------------------------------------------- the payload

  function WElementType(w: BitSeq, v: ElementType): Result<BitSeq> {
    match v
    case ChannelBased(reserved, layers) => WScalable(w, reserved, layers)
    case SceneBased(config) => WAmbisonics(w, config)
    case ReservedType(_, raw) => Ok(WBytes(w, raw))
  }

  function RElementType(d: BitSeq, p: nat, value: u8): Result<(ElementType, nat)> {
    if value == 0 then RScalable(d, p)
    else if value == 1 then
      var (config, p) :- RAmbisonics(d, p);
      Ok((SceneBased(config), p))
    else
      var (raw, p) :- RRest(d, p);
      Ok((ReservedType(value, raw), p))
  }

  /** `write_audio_element` up to, and without, the payload-level trailing bytes. */
  function WElementBody(w: BitSeq, v: AudioElement): Result<BitSeq> {
    hide WLeb;
    if v.elementType.ReservedType? && v.elementType.value <= 1 then Err(ReservedAliasesDefinedValue)
    else
      var w :- WU(WLeb(w, v.audioElementId), v.elementType.Value(), 3);
      var w :- WU(w, v.reserved, 5);
      var w :- WCounted(WLeb(w, v.codecConfigId), v.audioSubstreamIds, WLebItem);
      var w :- WCounted(w, v.params, WElementParam);
      WElementType(w, v.elementType)
  }

  function RElementBody(d: BitSeq, p: nat): Result<(AudioElement, nat)> {
    hide RLeb;
    var (id, p) :- RLeb(d, p);
    var (typeValue, p) :- RU8(d, p, 3);
    var (reserved, p) :- RU8(d, p, 5);
    var (codecConfigId, p) :- RLeb(d, p);
    var (substreams, p) :- RCounted(d, p, RLeb);
    var (params, p) :- RCounted(d, p, RElementParam);
    var (elementType, p) :- RElementType(d, p, typeValue);
    Ok((AudioElement(id, reserved, elementType, codecConfigId, substreams, params, []), p))
  }

  predicate ElementParamMinimal(d: BitSeq, p: nat) {
    hide RLeb;
    var q := End(RLeb(d, p));
    && LebMinimal(d, p)
    && (RLeb(d, p).Ok? ==> if RLeb(d, p).value.0 in {1, 2} then DefinitionMinimal(d, q) else LebMinimal(d, q))
  }

  predicate ElementMinimal(d: BitSeq, p: nat) {
    hide RLeb, RU8, RCounted, RElementParam;
    var a := End(RLeb(d, p));
    var substreams := End(RLeb(d, a + 8));
    var params := End(RCounted(d, substreams, RLeb));
    && LebMinimal(d, p) && LebMinimal(d, a + 8)
    && CountedMinimal(d, substreams, RLeb, LebMinimal)
    && CountedMinimal(d, params, RElementParam, ElementParamMinimal)
    && (RU8(d, a, 3).Ok? && RU8(d, a, 3).value.0 == 1 ==> LebMinimal(d, End(RCounted(d, params, RElementParam))))
  }

  // ------------------------------------------------------------ write, then read

  lemma StepOutputGain(w: BitSeq, v: OutputGain, d: BitSeq) returns (w1: BitSeq)
    requires WOutputGain(w, v).Ok? && WOutputGain(w, v).value <= d
    ensures w1 == WOutputGain(w, v).value && ROutputGain(d, |w|) == Ok((v, |w1|))
  {
    hide WU, RU8, WI16, RI16;
    w1 := StepU8(w, v.flags, 6, d);
    w1 := StepU8(w1, v.reserved, 2, d);
    w1 := StepI16(w1, v.gain, d);
  }

  lemma StepLayerHead(w: BitSeq, v: ChannelLayer, d: BitSeq) returns (w1: BitSeq)
    requires WLayerHead(w, v).Ok? && WLayerHead(w, v).value <= d
    ensures w1 == WLayerHead(w, v).value
    ensures RLayerHead(d, |w|) == Ok((LayerHead(v.layout.Value(), v.outputGain.Some?, v.reconGainIsPresent, v.reserved,
                                                v.substreamCount, v.coupledSubstreamCount), |w1|))
  {
    hide WU, RU8, WBool, RBool;
    w1 := StepU8(w, v.layout.Value(), 4, d);
    w1 := StepBool(w1, v.outputGain.Some?, d);
    w1 := StepBool(w1, v.reconGainIsPresent, d);
    w1 := StepU8(w1, v.reserved, 2, d);
    w1 := StepU8(w1, v.substreamCount, 8, d);
    w1 := StepU8(w1, v.coupledSubstreamCount, 8, d);
  }

  lemma LayerReadsBack(d: BitSeq, v: ChannelLayer)
    requires v.layout.Canonical()
    ensures ReadsBack(WChannelLayer, RChannelLayer, d, true, v)
  {
    hide WChannelLayer, RChannelLayer;
    forall w: BitSeq
      ensures ReadsBackAt(WChannelLayer, RChannelLayer, d, true, v, w)
    {
      if |w| % 8 == 0 && WChannelLayer(w, v).Ok? {
        if WChannelLayer(w, v).value <= d {
          StepChannelLayer(w, v, d);
        }
      }
    }
  }

  lemma StepChannelLayer(w: BitSeq, v: ChannelLayer, d: BitSeq)
    requires v.layout.Canonical() && WChannelLayer(w, v).Ok? && WChannelLayer(w, v).value <= d
    ensures RChannelLayer(d, |w|) == Ok((v, |WChannelLayer(w, v).value|))
  {
    hide WLayerHead, RLayerHead, WOutputGain, ROutputGain, WU, RU8;
    var head := WLayerHead(w, v).value;
    var gained := if v.outputGain.Some? then WOutputGain(head, v.outputGain.value).value else head;
    var w1 := WChannelLayer(w, v).value;
    assert gained <= w1;
    assert head <= gained;
    var _ := StepLayerHead(w, v, d);
    if v.outputGain.Some? {
      var _ := StepOutputGain(head, v.outputGain.value, d);
    }
    LayoutCodesInvert(v.layout, if v.layout.Expanded? then v.layout.expanded else Lfe, A0_2_0);
    if v.layout.Expanded? {
      var _ := StepU8(gained, v.layout.expanded.Value(), 8, d);
    }
  }

  predicate LayersCanonical(layers: seq<ChannelLayer>) {
    forall layer | layer in layers :: layer.layout.Canonical()
  }

  lemma StepScalable(w: BitSeq, reserved: u8, layers: seq<ChannelLayer>, d: BitSeq) returns (w1: BitSeq)
    requires |w| % 8 == 0 && LayersCanonical(layers)
    requires WScalable(w, reserved, layers).Ok? && WScalable(w, reserved, layers).value <= d
    ensures w1 == WScalable(w, reserved, layers).value && w <= w1 && |w1| % 8 == 0
    ensures RScalable(d, |w|) == Ok((ChannelBased(reserved, layers), |w1|))
  {
    hide WU, RU8, WMany, RMany, ReadsBack, Pow2;
    PowersOfTwo();
    var head := WU(WU(w, |layers|, 3).value, reserved, 5).value;
    assert |head| == |w| + 8;
    forall k | 0 <= k < |layers|
      ensures ReadsBack(WChannelLayer, RChannelLayer, d, true, layers[k])
    {
      assert layers[k] in layers;
      LayerReadsBack(d, layers[k]);
    }
    w1 := StepMany(WChannelLayer, RChannelLayer, d, true, head, layers, 0);
    assert layers[..0] == [];
    var a := StepU8(w, |layers|, 3, d);
    var _ := StepU8(a, reserved, 5, d);
  }

  lemma EntryReadsBack(d: BitSeq, x: i16)
    ensures ReadsBack(WEntry, RI16, d, true, x)
  {
    hide WI16, RI16;
    forall w: BitSeq
      ensures ReadsBackAt(WEntry, RI16, d, true, x, w)
    {
      if WI16(w, x) <= d {
        var _ := StepI16(w, x, d);
      }
    }
  }

  lemma StepProjection(w: BitSeq, v: AmbisonicsConfig, d: BitSeq) returns (w1: BitSeq)
    requires v.ProjectionMode? && |w| % 8 == 0 && WAmbisonics(w, v).Ok? && WAmbisonics(w, v).value <= d
    ensures w1 == WAmbisonics(w, v).value && w <= w1 && |w1| % 8 == 0
    ensures RAmbisonics(d, |w|) == Ok((v, |w1|))
  {
    hide WLeb, RLeb, WU, RU8, WI16, RI16, WMany, RMany, ReadsBack, MatrixLen;
    var mode := WLeb(w, 1);
    assert |mode| % 8 == 0;
    var a := WU(mode, v.outputChannelCount, 8).value;
    var b := WU(a, v.substreamCount, 8).value;
    var head := WU(b, v.coupledSubstreamCount, 8).value;
    assert |head| == |mode| + 24;
    forall k | 0 <= k < |v.demixingMatrix|
      ensures ReadsBack(WEntry, RI16, d, true, v.demixingMatrix[k])
    {
      EntryReadsBack(d, v.demixingMatrix[k]);
    }
    w1 := StepMany(WEntry, RI16, d, true, head, v.demixingMatrix, 0);
    assert v.demixingMatrix[..0] == [];
    MatrixFits(head, v.demixingMatrix, 0);
    var _ := StepLeb(w, 1, d);
    var _ := StepU8(mode, v.outputChannelCount, 8, d);
    var _ := StepU8(a, v.substreamCount, 8, d);
    var _ := StepU8(b, v.coupledSubstreamCount, 8, d);
  }

  /** Two bytes an entry, so the reader's test against the bytes left never refuses a written matrix. */
  lemma {:induction false} MatrixFits(w: BitSeq, xs: seq<i16>, i: nat)
    requires i <= |xs|
    ensures WMany(w, xs, i, WEntry).Ok? && |WMany(w, xs, i, WEntry).value| == |w| + 16 * (|xs| - i)
    decreases |xs| - i
  {
    hide WI16;
    if i < |xs| {
      MatrixFits(WI16(w, xs[i]), xs, i + 1);
    }
  }

  lemma StepAmbisonics(w: BitSeq, v: AmbisonicsConfig, d: BitSeq) returns (w1: BitSeq)
    requires |w| % 8 == 0 && WAmbisonics(w, v).Ok? && WAmbisonics(w, v).value <= d
    ensures w1 == WAmbisonics(w, v).value && w <= w1 && |w1| % 8 == 0
    ensures RAmbisonics(d, |w|) == Ok((v, |w1|))
  {
    hide WLeb, RLeb, WU, RU8, WBytes, RSpan, WMany, RMany, MatrixLen;
    match v
    case ReservedMode(mode) =>
      w1 := WLeb(w, mode);
      assert |w1| % 8 == 0;
      var _ := StepLeb(w, mode, d);
    case MonoMode(channels, substreams, mapping) =>
      var zero := WLeb(w, 0);
      assert |zero| % 8 == 0;
      var a := WU(zero, channels, 8).value;
      var b := WU(a, substreams, 8).value;
      assert |b| % 8 == 0;
      w1 := StepBytes(b, mapping, d);
      var _ := StepLeb(w, 0, d);
      var _ := StepU8(zero, channels, 8, d);
      var _ := StepU8(a, substreams, 8, d);
    case ProjectionMode(_, _, _, _) => w1 := StepProjection(w, v, d);
  }

  lemma StepDemixingParam(w: BitSeq, v: ElementParam, d: BitSeq) returns (w1: BitSeq)
    requires v.DemixingParam? && |w| % 8 == 0 && WParamDefinition(w, v.definition).Ok?
    requires var a := WParamDefinition(w, v.definition).value;
             WDemixingDefaults(a, v).Ok? && WDemixingDefaults(a, v).value <= d
    ensures w1 == WDemixingDefaults(WParamDefinition(w, v.definition).value, v).value && w <= w1 && |w1| % 8 == 0
    ensures RDemixingParam(d, |w|) == Ok((v, |w1|))
  {
    hide WU, RU8, WParamDefinition, RParamDefinition;
    var a := WParamDefinition(w, v.definition).value;
    assert a <= WDemixingDefaults(a, v).value;
    var _ := StepParamDefinition(w, v.definition, d);
    w1 := StepU8(a, v.defaultDmixpMode, 3, d);
    w1 := StepU8(w1, v.defaultReserved, 5, d);
    w1 := StepU8(w1, v.defaultW, 4, d);
    w1 := StepU8(w1, v.defaultWReserved, 4, d);
  }

  lemma StepElementParam(w: BitSeq, v: ElementParam, d: BitSeq) returns (w1: BitSeq)
    requires |w| % 8 == 0 && WElementParam(w, v).Ok? && WElementParam(w, v).value <= d
    ensures w1 == WElementParam(w, v).value && w <= w1 && |w1| % 8 == 0 && |w| + 8 <= |w1|
    ensures RElementParam(d, |w|) == Ok((v, |w1|))
  {
    hide WLeb, RLeb, WDemixingDefaults, RDemixingParam, WParamDefinition, RParamDefinition, WSized, RSized;
    var head := WLeb(w, v.DefinitionType());
    assert |head| % 8 == 0;
    match v {
      case DemixingParam(_, _, _, _, _) => w1 := StepDemixingParam(head, v, d);
      case ReconGainParam(definition) => w1 := StepParamDefinition(head, definition, d);
      case ExtensionParam(_, bytes) => w1 := StepSized(head, bytes, d);
    }
    var _ := StepLeb(w, v.DefinitionType(), d);
  }

  lemma ElementParamReadsBack(d: BitSeq, v: ElementParam)
    ensures ReadsBack(WElementParam, RElementParam, d, true, v)
  {
    hide WElementParam, RElementParam;
    forall w: BitSeq
      ensures ReadsBackAt(WElementParam, RElementParam, d, true, v, w)
    {
      if |w| % 8 == 0 && WElementParam(w, v).Ok? {
        var _ := StepElementParam(w, v, WElementParam(w, v).value);
        if WElementParam(w, v).value <= d {
          var _ := StepElementParam(w, v, d);
        }
      }
    }
  }

  predicate ElementCanonical(v: AudioElement) {
    v.trailing == [] && (v.elementType.ChannelBased? ==> LayersCanonical(v.elementType.layers))
  }

  lemma StepElementType(w: BitSeq, v: ElementType, d: BitSeq) returns (w1: BitSeq)
    requires |w| % 8 == 0 && WElementType(w, v).Ok? && WElementType(w, v).value <= d
    requires v.ChannelBased? ==> LayersCanonical(v.layers)
    requires v.ReservedType? ==> v.value >= 2 && WElementType(w, v).value == d
    ensures w1 == WElementType(w, v).value && w <= w1 && |w1| % 8 == 0
    ensures RElementType(d, |w|, v.Value()) == Ok((v, |w1|))
  {
    hide WScalable, RScalable, WAmbisonics, RAmbisonics, WBytes, RRest, LayersCanonical;
    match v
    case ChannelBased(reserved, layers) => w1 := StepScalable(w, reserved, layers, d);
    case SceneBased(config) => w1 := StepAmbisonics(w, config, d);
    case ReservedType(_, raw) => w1 := StepRest(w, raw);
  }

  lemma StepElementLists(w: BitSeq, ids: seq<u32>, params: seq<ElementParam>, d: BitSeq) returns (w1: BitSeq)
    requires |w| % 8 == 0 && WCounted(w, ids, WLebItem).Ok?
    requires var a := WCounted(w, ids, WLebItem).value;
             WCounted(a, params, WElementParam).Ok? && WCounted(a, params, WElementParam).value <= d
    ensures var a := WCounted(w, ids, WLebItem).value;
            && w1 == WCounted(a, params, WElementParam).value && w <= a && w <= w1 && |w1| % 8 == 0
            && RCounted(d, |w|, RLeb) == Ok((ids, |a|))
            && RCounted(d, |a|, RElementParam) == Ok((params, |w1|))
  {
    hide WCounted, RCounted, WLebItem, RLeb, WElementParam, RElementParam, ReadsBack;
    var a := WCounted(w, ids, WLebItem).value;
    forall k | 0 <= k < |ids|
      ensures forall e :: ReadsBack(WLebItem, RLeb, e, true, ids[k])
    {
      forall e { LebReadsBack(e, ids[k]); }
    }
    var _ := StepCounted(WLebItem, RLeb, a, w, ids);
    forall k | 0 <= k < |params|
      ensures ReadsBack(WElementParam, RElementParam, d, true, params[k])
    {
      ElementParamReadsBack(d, params[k]);
    }
    w1 := StepCounted(WElementParam, RElementParam, d, a, params);
    var _ := StepCounted(WLebItem, RLeb, d, w, ids);
  }

  /** Write then read; a reserved element type must be the last thing in the payload. */
  lemma StepElementBody(w: BitSeq, v: AudioElement, d: BitSeq) returns (w1: BitSeq)
    requires ElementCanonical(v)
    requires |w| % 8 == 0 && WElementBody(w, v).Ok? && WElementBody(w, v).value <= d
    requires v.elementType.ReservedType? ==> WElementBody(w, v).value == d
    ensures w1 == WElementBody(w, v).value && w <= w1 && |w1| % 8 == 0
    ensures RElementBody(d, |w|) == Ok((v, |w1|))
  {
    hide WLeb, RLeb, WU, RU8, WCounted, RCounted, WLebItem, WElementParam, RElementParam;
    hide WElementType, RElementType, LayersCanonical;
    var a := WLeb(w, v.audioElementId);
    var b := WU(a, v.elementType.Value(), 3).value;
    var c := WU(b, v.reserved, 5).value;
    var e := WLeb(c, v.codecConfigId);
    assert |c| == |a| + 8;
    assert |e| % 8 == 0;
    var ids := WCounted(e, v.audioSubstreamIds, WLebItem).value;
    var params := WCounted(ids, v.params, WElementParam).value;
    var _ := StepElementLists(e, v.audioSubstreamIds, v.params, params);
    w1 := StepElementType(params, v.elementType, d);
    var _ := StepElementLists(e, v.audioSubstreamIds, v.params, d);
    var _ := StepLeb(w, v.audioElementId, d);
    var _ := StepU8(a, v.elementType.Value(), 3, d);
    var _ := StepU8(b, v.reserved, 5, d);
    var _ := StepLeb(c, v.codecConfigId, d);
  }

  // ------------------------------------------------------------ read, then write

  lemma AgainOutputGain(d: BitSeq, p0: nat, p: nat, w0: BitSeq, w: BitSeq) returns (w1: BitSeq)
    requires Canon(d, p0, p, w0, w) && ROutputGain(d, p).Ok?
    ensures var (v, q) := ROutputGain(d, p).value;
            WOutputGain(w, v) == Ok(w1) && Canon(d, p0, q, w0, w1) && q == p + 24 && |w1| == |w| + 24
  {
    hide WU, RU8, WI16, RI16, Canon;
    w1 := AgainU8(d, p0, p, 6, w0, w);
    w1 := AgainU8(d, p0, p + 6, 2, w0, w1);
    w1 := AgainI16(d, p0, p + 8, w0, w1);
  }

  lemma AgainLayerHead(d: BitSeq, p0: nat, p: nat, v: ChannelLayer, w0: BitSeq, w: BitSeq) returns (w1: BitSeq)
    requires Canon(d, p0, p, w0, w)
    requires RLayerHead(d, p)
          == Ok((LayerHead(v.layout.Value(), v.outputGain.Some?, v.reconGainIsPresent, v.reserved, v.substreamCount,
                           v.coupledSubstreamCount), p + 24))
    ensures WLayerHead(w, v) == Ok(w1) && Canon(d, p0, p + 24, w0, w1)
  {
    hide WU, RU8, WBool, RBool, Canon;
    w1 := AgainU8(d, p0, p, 4, w0, w);
    w1 := AgainBool(d, p0, p + 4, w0, w1);
    w1 := AgainBool(d, p0, p + 5, w0, w1);
    w1 := AgainU8(d, p0, p + 6, 2, w0, w1);
    w1 := AgainU8(d, p0, p + 8, 8, w0, w1);
    w1 := AgainU8(d, p0, p + 16, 8, w0, w1);
  }

  lemma LayerHeadShape(d: BitSeq, p: nat)
    requires RLayerHead(d, p).Ok?
    ensures RLayerHead(d, p).value.1 == p + 24 && RLayerHead(d, p).value.0.layoutBits < 16
  {
    hide RU8, RBool;
    PowersOfTwo();
  }

  /** What is read back has a layout the decoder can produce, and is written again canonically. */
  lemma AgainChannelLayer(d: BitSeq, p0: nat, p: nat, w0: BitSeq, w: BitSeq) returns (w1: BitSeq)
    requires Canon(d, p0, p, w0, w) && p % 8 == 0 && RChannelLayer(d, p).Ok?
    ensures var (v, q) := RChannelLayer(d, p).value;
            && WChannelLayer(w, v) == Ok(w1) && Canon(d, p0, q, w0, w1) && q % 8 == 0 && v.layout.Canonical()
            && |w1| - |w| == q - p
  {
    hide RLayerHead, WLayerHead, WOutputGain, ROutputGain, WU, RU8, Canon;
    var (v, _) := RChannelLayer(d, p).value;
    var head := RLayerHead(d, p).value.0;
    LayerHeadShape(d, p);
    LayoutValuesInvert(head.layoutBits);
    if v.layout.Expanded? {
      LayoutValuesInvert(v.layout.expanded.Value());
    }
    w1 := AgainLayerHead(d, p0, p, v, w0, w);
    var q := p + 24;
    if head.gated {
      w1 := AgainOutputGain(d, p0, q, w0, w1);
      q := q + 24;
    }
    if v.layout.Expanded? {
      LayoutValuesInvert(RU8(d, q, 8).value.0);
      w1 := AgainU8(d, p0, q, 8, w0, w1);
    }
  }

  lemma LayerAgain(d: BitSeq, p: nat, w: BitSeq)
    requires p % 8 == 0 && p <= |d| && RChannelLayer(d, p).Ok?
    ensures RewritesAt(WChannelLayer, RChannelLayer, Fixed, d, p, w)
    ensures var (v, q) := RChannelLayer(d, p).value; v.layout.Canonical() && q % 8 == 0 && q <= |d|
  {
    hide WChannelLayer, RChannelLayer;
    var _ := AgainChannelLayer(d, p, p, w, w);
  }

  lemma LayersRewrite(d: BitSeq)
    ensures Rewrites(WChannelLayer, RChannelLayer, Fixed, d)
  {
    hide WChannelLayer, RChannelLayer;
    forall p: nat, w: BitSeq
      ensures RewritesAt(WChannelLayer, RChannelLayer, Fixed, d, p, w)
    {
      if p % 8 == 0 && p <= |d| && RChannelLayer(d, p).Ok? {
        LayerAgain(d, p, w);
      }
    }
  }

  lemma LayersGood(d: BitSeq, p: nat, n: nat)
    requires p % 8 == 0 && p <= |d| && RMany(d, p, n, [], RChannelLayer).Ok?
    ensures LayersCanonical(RMany(d, p, n, [], RChannelLayer).value.0)
  {
    hide RMany, RChannelLayer;
    forall q: nat | q % 8 == 0 && q <= |d| && RChannelLayer(d, q).Ok?
      ensures RChannelLayer(d, q).value.0.layout.Canonical()
      ensures RChannelLayer(d, q).value.1 % 8 == 0 && RChannelLayer(d, q).value.1 <= |d|
    {
      LayerAgain(d, q, []);
    }
    ManySatisfy(d, p, n, [], RChannelLayer, (layer: ChannelLayer) => layer.layout.Canonical());
  }

  lemma AgainScalable(d: BitSeq, p0: nat, p: nat, w0: BitSeq, w: BitSeq) returns (w1: BitSeq)
    requires Canon(d, p0, p, w0, w) && p % 8 == 0 && RScalable(d, p).Ok?
    ensures var (v, q) := RScalable(d, p).value;
            && v.ChannelBased? && WScalable(w, v.reserved, v.layers) == Ok(w1) && LayersCanonical(v.layers)
            && Canon(d, p0, q, w0, w1) && q % 8 == 0 && |w1| - |w| == q - p
  {
    hide WU, RU8, WMany, RMany, Rewrites, LayersCanonical, Canon;
    var (count, _) := RU8(d, p, 3).value;
    w1 := AgainU8(d, p0, p, 3, w0, w);
    w1 := AgainU8(d, p0, p + 3, 5, w0, w1);
    LayersRewrite(d);
    LayersGood(d, p + 8, count);
    FixedItems(d, p + 8, count, RChannelLayer);
    w1 := AgainMany(WChannelLayer, RChannelLayer, Fixed, d, p0, p + 8, count, [], w0, w1);
  }

  lemma EntriesRewrite(d: BitSeq)
    ensures Rewrites(WEntry, RI16, Fixed, d)
  {
    hide WI16, RI16;
    forall p: nat, w: BitSeq
      ensures RewritesAt(WEntry, RI16, Fixed, d, p, w)
    {
      if p <= |d| && RI16(d, p).Ok? {
        var _ := AgainI16(d, p, p, w, w);
      }
    }
  }

  lemma AgainAmbisonics(d: BitSeq, p0: nat, p: nat, w0: BitSeq, w: BitSeq) returns (w1: BitSeq)
    requires Canon(d, p0, p, w0, w) && p % 8 == 0 && RAmbisonics(d, p).Ok?
    ensures var (v, q) := RAmbisonics(d, p).value;
            && WAmbisonics(w, v) == Ok(w1) && Canon(d, p0, q, w0, w1) && q % 8 == 0
            && Tight(q - p, |w1| - |w|, LebMinimal(d, p))
  {
    hide WLeb, RLeb, LebMinimal, WU, RU8, WBytes, RSpan, WMany, RMany, Rewrites, MatrixLen, Canon;
    w1 := AgainLeb(d, p0, p, w0, w);
    var (mode, q) := RLeb(d, p).value;
    assert q % 8 == 0;
    if mode <= 1 {
      var channels, substreams := RU8(d, q, 8).value.0, RU8(d, q + 8, 8).value.0;
      w1 := AgainU8(d, p0, q, 8, w0, w1);
      w1 := AgainU8(d, p0, q + 8, 8, w0, w1);
      if mode == 0 {
        w1 := AgainBytes(d, p0, q + 16, channels, w0, w1);
      } else {
        var coupled := RU8(d, q + 16, 8).value.0;
        w1 := AgainU8(d, p0, q + 16, 8, w0, w1);
        EntriesRewrite(d);
        var entries := MatrixLen(channels, substreams, coupled);
        FixedItems(d, q + 24, entries, RI16);
        w1 := AgainMany(WEntry, RI16, Fixed, d, p0, q + 24, entries, [], w0, w1);
      }
    }
  }

  lemma AgainDemixingParam(d: BitSeq, p0: nat, p: nat, w0: BitSeq, w: BitSeq) returns (w1: BitSeq)
    requires Canon(d, p0, p, w0, w) && p % 8 == 0 && RDemixingParam(d, p).Ok?
    ensures var (v, q) := RDemixingParam(d, p).value;
            && v.DemixingParam? && WParamDefinition(w, v.definition).Ok?
            && WDemixingDefaults(WParamDefinition(w, v.definition).value, v) == Ok(w1)
            && Canon(d, p0, q, w0, w1) && q % 8 == 0 && Tight(q - p, |w1| - |w|, DefinitionMinimal(d, p))
  {
    hide WU, RU8, WParamDefinition, RParamDefinition, DefinitionMinimal, Canon;
    var q := RParamDefinition(d, p).value.1;
    w1 := AgainParamDefinition(d, p0, p, w0, w);
    w1 := AgainU8(d, p0, q, 3, w0, w1);
    w1 := AgainU8(d, p0, q + 3, 5, w0, w1);
    w1 := AgainU8(d, p0, q + 8, 4, w0, w1);
    w1 := AgainU8(d, p0, q + 12, 4, w0, w1);
  }

  lemma AgainElementParam(d: BitSeq, p0: nat, p: nat, w0: BitSeq, w: BitSeq) returns (w1: BitSeq)
    requires Canon(d, p0, p, w0, w) && p % 8 == 0 && RElementParam(d, p).Ok?
    ensures var (v, q) := RElementParam(d, p).value;
            && WElementParam(w, v) == Ok(w1) && Canon(d, p0, q, w0, w1) && q % 8 == 0
            && Tight(q - p, |w1| - |w|, ElementParamMinimal(d, p))
  {
    hide LebMinimal, DefinitionMinimal;
    hide WLeb, RLeb, WDemixingDefaults, RDemixingParam, WParamDefinition, RParamDefinition, WSized, RSized, Canon;
    var (t, q) := RLeb(d, p).value;
    assert q % 8 == 0;
    w1 := AgainLeb(d, p0, p, w0, w);
    if t == 1 {
      w1 := AgainDemixingParam(d, p0, q, w0, w1);
    } else if t == 2 {
      w1 := AgainParamDefinition(d, p0, q, w0, w1);
    } else {
      w1 := AgainSized(d, p0, q, w0, w1);
    }
  }

  lemma ElementParamsRewrite(d: BitSeq)
    ensures Rewrites(WElementParam, RElementParam, ElementParamMinimal, d)
  {
    hide WElementParam, RElementParam, ElementParamMinimal;
    forall p: nat, w: BitSeq
      ensures RewritesAt(WElementParam, RElementParam, ElementParamMinimal, d, p, w)
    {
      if p % 8 == 0 && p <= |d| && RElementParam(d, p).Ok? {
        var _ := AgainElementParam(d, p, p, w, w);
      }
    }
  }

  lemma AgainElementType(d: BitSeq, p0: nat, p: nat, value: u8, w0: BitSeq, w: BitSeq) returns (w1: BitSeq)
    requires Canon(d, p0, p, w0, w) && p % 8 == 0 && |d| % 8 == 0 && RElementType(d, p, value).Ok?
    ensures var (v, q) := RElementType(d, p, value).value;
            && WElementType(w, v) == Ok(w1) && Canon(d, p0, q, w0, w1) && q % 8 == 0 && v.Value() == value
            && (v.ChannelBased? ==> LayersCanonical(v.layers)) && (v.ReservedType? ==> value >= 2 && q == |d|)
            && Tight(q - p, |w1| - |w|, value == 1 ==> LebMinimal(d, p))
  {
    hide LebMinimal, WScalable, RScalable, WAmbisonics, RAmbisonics, WBytes, LayersCanonical;
    if value == 0 {
      w1 := AgainScalable(d, p0, p, w0, w);
    } else if value == 1 {
      w1 := AgainAmbisonics(d, p0, p, w0, w);
    } else {
      w1 := AgainBytes(d, p0, p, Remaining(d, p), w0, w);
    }
  }

  lemma AgainElementLists(d: BitSeq, p0: nat, p: nat, q: nat, w0: BitSeq, w: BitSeq) returns (w1: BitSeq)
    requires Canon(d, p0, p, w0, w) && p % 8 == 0 && RCounted(d, p, RLeb).Ok? && RCounted(d, p, RLeb).value.1 == q
    requires RCounted(d, q, RElementParam).Ok?
    ensures WCounted(w, RCounted(d, p, RLeb).value.0, WLebItem).Ok?
    ensures WCounted(WCounted(w, RCounted(d, p, RLeb).value.0, WLebItem).value,
                     RCounted(d, q, RElementParam).value.0, WElementParam) == Ok(w1)
    ensures Canon(d, p0, RCounted(d, q, RElementParam).value.1, w0, w1)
    ensures RCounted(d, q, RElementParam).value.1 % 8 == 0
    ensures Tight(RCounted(d, q, RElementParam).value.1 - p, |w1| - |w|,
                  CountedMinimal(d, p, RLeb, LebMinimal) && CountedMinimal(d, q, RElementParam, ElementParamMinimal))
  {
    hide LebMinimal, ElementParamMinimal, CountedMinimal, WCounted, RCounted, WLebItem, RLeb, WElementParam,
         RElementParam, Rewrites, Canon;
    LebRewrites(d);
    w1 := AgainCounted(WLebItem, RLeb, LebMinimal, d, p0, p, w0, w);
    ElementParamsRewrite(d);
    w1 := AgainCounted(WElementParam, RElementParam, ElementParamMinimal, d, p0, q, w0, w1);
  }

  /** Read then write: what is read is canonical and written again canonically. */
  lemma AgainElementBody(d: BitSeq, p0: nat, p: nat, w0: BitSeq, w: BitSeq) returns (w1: BitSeq)
    requires Canon(d, p0, p, w0, w) && p % 8 == 0 && |d| % 8 == 0 && RElementBody(d, p).Ok?
    ensures var (v, q) := RElementBody(d, p).value;
            && WElementBody(w, v) == Ok(w1) && Canon(d, p0, q, w0, w1) && q % 8 == 0
            && ElementCanonical(v) && (v.elementType.ReservedType? ==> q == |d|)
            && Tight(q - p, |w1| - |w|, ElementMinimal(d, p))
  {
    hide LebMinimal, CountedMinimal, ElementParamMinimal;
    hide WLeb, RLeb, WU, RU8, WCounted, RCounted, WLebItem, WElementParam, RElementParam;
    hide WElementType, RElementType, LayersCanonical, Canon;
    var a := RLeb(d, p).value.1;
    assert a % 8 == 0;
    var c := RLeb(d, a + 8).value.1;
    assert c % 8 == 0;
    var ids := RCounted(d, c, RLeb).value.1;
    w1 := AgainLeb(d, p0, p, w0, w);
    w1 := AgainU8(d, p0, a, 3, w0, w1);
    w1 := AgainU8(d, p0, a + 3, 5, w0, w1);
    w1 := AgainLeb(d, p0, a + 8, w0, w1);
    w1 := AgainElementLists(d, p0, c, ids, w0, w1);
    w1 := AgainElementType(d, p0, RCounted(d, ids, RElementParam).value.1, RU8(d, a, 3).value.0, w0, w1);
  }
}
