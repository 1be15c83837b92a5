/** The Mix Presentation payload. */
module MixPresentations {
  import opened Core
  import opened Bits
  import opened Leb128
  import opened Lists
  import opened Layouts
  import opened ParamDefinitions

  datatype HeadphonesMode = StereoMode | BinauralMode | ReservedHeadphones(raw: u8)
  {
    function Value(): u8 {
      match this
      case StereoMode => 0
      case BinauralMode => 1
      case ReservedHeadphones(raw) => raw
    }

    static function FromValue(value: u8): HeadphonesMode {
      if value == 0 then StereoMode else if value == 1 then BinauralMode else ReservedHeadphones(value)
    }

    predicate Canonical() {
      ReservedHeadphones? ==> raw >= 2
    }
  }

  datatype RenderingConfig = RenderingConfig(mode: HeadphonesMode, reserved: u8, extension: seq<u8>)

  datatype MixGainDefinition = MixGainDefinition(definition: ParamDefinition, defaultMixGain: i16)

  datatype AnchorElement = AnchorElement(anchor: u8, loudness: i16)

  datatype LoudnessExtension = LoudnessExtension(infoTypeBits: u8, bytes: seq<u8>)

  datatype Loudness = Loudness(
    integrated: i16, digitalPeak: i16, truePeak: Option<i16>, anchored: Option<seq<AnchorElement>>,
    extension: Option<LoudnessExtension>)
  {
    /** `info_type`: bit 0 the true peak, bit 1 the anchors, the six others as the extension keeps them. */
    function InfoType(): u8 {
      (if truePeak.Some? then 1 else 0) + (if anchored.Some? then 2 else 0)
      + (if extension.Some? then extension.value.infoTypeBits / 4 * 4 else 0)
    }
  }

  datatype MixLayout = SystemLayout(system: SoundSystem) | BinauralLayout | ReservedMixLayout(raw: u8)
  {
    function LayoutType(): u8 {
      match this
      case SystemLayout(_) => 2
      case BinauralLayout => 3
      case ReservedMixLayout(raw) => raw
    }
  }

  datatype LayoutWithLoudness = LayoutWithLoudness(layout: MixLayout, reserved: u8, loudness: Loudness)

  datatype SubMixElement = SubMixElement(
    audioElementId: u32, annotations: seq<seq<u8>>, rendering: RenderingConfig, mixGain: MixGainDefinition)

  datatype SubMix = SubMix(
    elements: seq<SubMixElement>, outputMixGain: MixGainDefinition, layouts: seq<LayoutWithLoudness>)

  datatype MixPresentation = MixPresentation(
    mixPresentationId: u32, annotationsLanguage: seq<seq<u8>>, presentationAnnotations: seq<seq<u8>>,
    subMixes: seq<SubMix>, trailing: seq<u8>)

  // ------------------------------------------------------------------ loudness

  function WAnchor(w: BitSeq, v: AnchorElement): Result<BitSeq> {
    var w :- WU(w, v.anchor, 8);
    Ok(WI16(w, v.loudness))
  }

  function RAnchor(d: BitSeq, p: nat): Result<(AnchorElement, nat)> {
    var (anchor, p) :- RU8(d, p, 8);
    var (loudness, p) :- RI16(d, p);
    Ok((AnchorElement(anchor, loudness), p))
  }

  function WAnchors(w: BitSeq, anchors: seq<AnchorElement>): Result<BitSeq> {
    if |anchors| > 255 then Err(ObuTooLarge)
    else
      var w :- WU(w, |anchors|, 8);
      WMany(w, anchors, 0, WAnchor)
  }

  function RAnchors(d: BitSeq, p: nat): Result<(seq<AnchorElement>, nat)> {
    var (count, p) :- RU8(d, p, 8);
    if 3 * count > Remaining(d, p) then Err(UnexpectedEndOfInput) else RMany(d, p, count, [], RAnchor)
  }

  /** The extension bits name at least one of the six, and neither of the two that gate other fields. */
  predicate ExtensionFits(v: Loudness) {
    v.extension.Some? ==> v.extension.value.infoTypeBits / 4 * 4 != 0 && v.extension.value.infoTypeBits % 4 == 0
  }

  function WLoudnessHead(w: BitSeq, v: Loudness): (r: Result<BitSeq>)
    ensures r.Ok? ==> w <= r.value && |r.value| == |w| + 40 + (if v.truePeak.Some? then 16 else 0)
  {
    hide WU, WI16;
    var first := WU(w, v.InfoType(), 8);
    if first.Err? then first
    else
      var w := WI16(WI16(first.value, v.integrated), v.digitalPeak);
      Ok(if v.truePeak.Some? then WI16(w, v.truePeak.value) else w)
  }

  function WLoudness(w: BitSeq, v: Loudness): Result<BitSeq> {
    if !ExtensionFits(v) then Err(GatedFieldMismatch)
    else
      var w :- WLoudnessHead(w, v);
      var w :- if v.anchored.Some? then WAnchors(w, v.anchored.value) else Ok(w);
      if v.extension.Some? then WSized(w, v.extension.value.bytes) else Ok(w)
  }

  datatype LoudnessHead = LoudnessHead(infoType: u8, integrated: i16, digitalPeak: i16, truePeak: Option<i16>)

  function RLoudnessHead(d: BitSeq, p: nat): Result<(LoudnessHead, nat)> {
    var (infoType, p) :- RU8(d, p, 8);
    var (integrated, p) :- RI16(d, p);
    var (digitalPeak, p) :- RI16(d, p);
    if infoType % 2 == 0 then Ok((LoudnessHead(infoType, integrated, digitalPeak, None), p))
    else
      var (truePeak, p) :- RI16(d, p);
      Ok((LoudnessHead(infoType, integrated, digitalPeak, Some(truePeak)), p))
  }

  function RLoudness(d: BitSeq, p: nat): Result<(Loudness, nat)> {
    var (head, p) :- RLoudnessHead(d, p);
    var (anchored, p) :-
      if head.infoType / 2 % 2 == 0 then Ok((None, p))
      else
        var (anchors, p) :- RAnchors(d, p);
        Ok((Some(anchors), p));
    var (extension, p) :-
      if head.infoType / 4 * 4 == 0 then Ok((None, p))
      else
        var (bytes, p) :- RSized(d, p);
        Ok((Some(LoudnessExtension(head.infoType / 4 * 4, bytes)), p));
    Ok((Loudness(head.integrated, head.digitalPeak, head.truePeak, anchored, extension), p))
  }

  // ------------------------------------------------------------------- layouts

  function WLayoutSelector(w: BitSeq, v: LayoutWithLoudness): (r: Result<BitSeq>)
    ensures r.Ok? ==> w <= r.value && |r.value| == |w| + 8
  {
    hide WU;
    if v.layout.ReservedMixLayout? && (v.layout.raw == 2 || v.layout.raw == 3) then Err(ReservedAliasesDefinedValue)
    else
      var w :- WU(w, v.layout.LayoutType(), 2);
      if v.layout.SystemLayout? then
        var w :- WU(w, v.layout.system.Value(), 4);
        WU(w, v.reserved, 2)
      else WU(w, v.reserved, 6)
  }

  function RLayoutSelector(d: BitSeq, p: nat): Result<(MixLayout, u8, nat)> {
    var (layoutType, p) :- RU8(d, p, 2);
    if layoutType == 2 then
      var (system, p) :- RU8(d, p, 4);
      var (reserved, p) :- RU8(d, p, 2);
      Ok((SystemLayout(SoundSystem.FromValue(system)), reserved, p))
    else
      var (reserved, p) :- RU8(d, p, 6);
      Ok((if layoutType == 3 then BinauralLayout else ReservedMixLayout(layoutType), reserved, p))
  }

  function WMixLayout(w: BitSeq, v: LayoutWithLoudness): Result<BitSeq> {
    var w :- WLayoutSelector(w, v);
    WLoudness(w, v.loudness)
  }

  function RMixLayout(d: BitSeq, p: nat): Result<(LayoutWithLoudness, nat)> {
    var (layout, reserved, p) :- RLayoutSelector(d, p);
    var (loudness, p) :- RLoudness(d, p);
    Ok((LayoutWithLoudness(layout, reserved, loudness), p))
  }

  // ------------------------------------------------------------------ sub-mixes

  function WMixGainDefinition(w: BitSeq, v: MixGainDefinition): Result<BitSeq> {
    var w :- WParamDefinition(w, v.definition);
    Ok(WI16(w, v.defaultMixGain))
  }

  function RMixGainDefinition(d: BitSeq, p: nat): Result<(MixGainDefinition, nat)> {
    var (definition, p) :- RParamDefinition(d, p);
    var (gain, p) :- RI16(d, p);
    Ok((MixGainDefinition(definition, gain), p))
  }

  function WRendering(w: BitSeq, v: RenderingConfig): Result<BitSeq> {
    var w :- WU(w, v.mode.Value(), 2);
    var w :- WU(w, v.reserved, 6);
    WSized(w, v.extension)
  }

  function RRendering(d: BitSeq, p: nat): Result<(RenderingConfig, nat)> {
    var (mode, p) :- RU8(d, p, 2);
    var (reserved, p) :- RU8(d, p, 6);
    var (extension, p) :- RSized(d, p);
    Ok((RenderingConfig(HeadphonesMode.FromValue(mode), reserved, extension), p))
  }

  /** A string without its terminator. */
  function RText(d: BitSeq, p: nat): Result<(seq<u8>, nat)> {
    var (bytes, p) :- RString(d, p);
    Ok((bytes[..|bytes| - 1], p))
  }

  function RTexts(d: BitSeq, p: nat, count: nat): Result<(seq<seq<u8>>, nat)> {
    if count > Remaining(d, p) then Err(UnexpectedEndOfInput) else RMany(d, p, count, [], RText)
  }

  function WSubMixElement(w: BitSeq, v: SubMixElement): Result<BitSeq> {
    hide WLeb;
    var w :- WMany(WLeb(w, v.audioElementId), v.annotations, 0, WString);
    var w :- WRendering(w, v.rendering);
    WMixGainDefinition(w, v.mixGain)
  }

  function RSubMixElement(d: BitSeq, p: nat, countLabel: nat): Result<(SubMixElement, nat)> {
    hide RLeb;
    var (id, p) :- RLeb(d, p);
    var (annotations, p) :- RTexts(d, p, countLabel);
    var (rendering, p) :- RRendering(d, p);
    var (gain, p) :- RMixGainDefinition(d, p);
    Ok((SubMixElement(id, annotations, rendering, gain), p))
  }

  function SubMixElementReader(countLabel: nat): ItemReader<SubMixElement> {
    (d, p) => RSubMixElement(d, p, countLabel)
  }

  function WSubMix(w: BitSeq, v: SubMix): Result<BitSeq> {
    var w :- WCounted(w, v.elements, WSubMixElement);
    var w :- WMixGainDefinition(w, v.outputMixGain);
    WCounted(w, v.layouts, WMixLayout)
  }

  function RSubMix(d: BitSeq, p: nat, countLabel: nat): Result<(SubMix, nat)> {
    var (elements, p) :- RCounted(d, p, SubMixElementReader(countLabel));
    var (gain, p) :- RMixGainDefinition(d, p);
    var (layouts, p) :- RCounted(d, p, RMixLayout);
    Ok((SubMix(elements, gain, layouts), p))
  }

  function SubMixReader(countLabel: nat): ItemReader<SubMix> {
    (d, p) => RSubMix(d, p, countLabel)
  }

  predicate SubMixAnnotated(v: SubMix, countLabel: nat) {
    forall element | element in v.elements :: |element.annotations| == countLabel
  }

  predicate AnnotationCountsMatch(v: MixPresentation) {
    && |v.presentationAnnotations| == |v.annotationsLanguage|
    && forall s | s in v.subMixes :: SubMixAnnotated(s, |v.annotationsLanguage|)
  }

  function WMixBody(w: BitSeq, v: MixPresentation): Result<BitSeq> {
    hide WLeb;
    if !AnnotationCountsMatch(v) then Err(AnnotationCountMismatch)
    else
      var w :- WCounted(WLeb(w, v.mixPresentationId), v.annotationsLanguage, WString);
      var w :- WMany(w, v.presentationAnnotations, 0, WString);
      WCounted(w, v.subMixes, WSubMix)
  }

  function RMixBody(d: BitSeq, p: nat): Result<(MixPresentation, nat)> {
    hide RLeb;
    var (id, p) :- RLeb(d, p);
    var (languages, p) :- RCounted(d, p, RText);
    var (annotations, p) :- RTexts(d, p, |languages|);
    var (subMixes, p) :- RCounted(d, p, SubMixReader(|languages|));
    Ok((MixPresentation(id, languages, annotations, subMixes, []), p))
  }

  /** The only uleb128 is the size of the extension, after the anchors. */
  predicate LoudnessMinimal(d: BitSeq, p: nat) {
    hide RLoudnessHead, RAnchors;
    RLoudnessHead(d, p).Ok? ==>
      var (head, q) := RLoudnessHead(d, p).value;
      head.infoType / 4 * 4 != 0 ==>
        LebMinimal(d, if head.infoType / 2 % 2 == 0 then q else End(RAnchors(d, q)))
  }

  predicate MixLayoutMinimal(d: BitSeq, p: nat) {
    LoudnessMinimal(d, p + 8)
  }

  predicate SubMixElementMinimal(d: BitSeq, p: nat, countLabel: nat) {
    hide RLeb, RTexts, RRendering;
    var rendering := End(RTexts(d, End(RLeb(d, p)), countLabel));
    && LebMinimal(d, p) && LebMinimal(d, rendering + 8)
    && DefinitionMinimal(d, End(RRendering(d, rendering)))
  }

  function SubMixElementTest(countLabel: nat): ItemTest {
    (d: BitSeq, p: nat) => SubMixElementMinimal(d, p, countLabel)
  }

  predicate SubMixMinimal(d: BitSeq, p: nat, countLabel: nat) {
    hide RCounted, RMixGainDefinition, RMixLayout, SubMixElementReader;
    var gain := End(RCounted(d, p, SubMixElementReader(countLabel)));
    && CountedMinimal(d, p, SubMixElementReader(countLabel), SubMixElementTest(countLabel))
    && DefinitionMinimal(d, gain)
    && CountedMinimal(d, End(RMixGainDefinition(d, gain)), RMixLayout, MixLayoutMinimal)
  }

  function SubMixTest(countLabel: nat): ItemTest {
    (d: BitSeq, p: nat) => SubMixMinimal(d, p, countLabel)
  }

  predicate MixMinimal(d: BitSeq, p: nat) {
    hide RLeb, RCounted, RTexts, RText, SubMixReader;
    var a := End(RLeb(d, p));
    && LebMinimal(d, p) && LebMinimal(d, a)
    && (RCounted(d, a, RText).Ok? ==>
          var (languages, b) := RCounted(d, a, RText).value;
          var subMixes := End(RTexts(d, b, |languages|));
          CountedMinimal(d, subMixes, SubMixReader(|languages|), SubMixTest(|languages|)))
  }

  // ------------------------------------------------------------ write, then read

  predicate LayoutCanonical(v: LayoutWithLoudness) {
    v.layout.SystemLayout? ==> v.layout.system.Canonical()
  }

  predicate SubMixCanonical(v: SubMix) {
    && (forall element | element in v.elements :: element.rendering.mode.Canonical())
    && (forall layout | layout in v.layouts :: LayoutCanonical(layout))
  }

  predicate MixCanonical(v: MixPresentation) {
    v.trailing == [] && forall s | s in v.subMixes :: SubMixCanonical(s)
  }

  lemma AnchorReadsBack(d: BitSeq, v: AnchorElement)
    ensures ReadsBack(WAnchor, RAnchor, d, true, v)
  {
    hide WU, RU8, WI16, RI16;
    forall w: BitSeq
      ensures ReadsBackAt(WAnchor, RAnchor, d, true, v, w)
    {
      if WAnchor(w, v).Ok? && WAnchor(w, v).value <= d {
        var a := StepU8(w, v.anchor, 8, d);
        var _ := StepI16(a, v.loudness, d);
      }
    }
  }

  /** Three bytes an anchor. */
  lemma {:induction false} AnchorsLength(w: BitSeq, xs: seq<AnchorElement>, i: nat)
    requires i <= |xs| && WMany(w, xs, i, WAnchor).Ok?
    ensures |WMany(w, xs, i, WAnchor).value| == |w| + 24 * (|xs| - i)
    decreases |xs| - i
  {
    hide WU, WI16;
    if i < |xs| {
      AnchorsLength(WAnchor(w, xs[i]).value, xs, i + 1);
    }
  }

  lemma StepAnchors(w: BitSeq, v: seq<AnchorElement>, d: BitSeq) returns (w1: BitSeq)
    requires |w| % 8 == 0 && WAnchors(w, v).Ok? && WAnchors(w, v).value <= d
    ensures w1 == WAnchors(w, v).value && w <= w1 && |w1| % 8 == 0 && RAnchors(d, |w|) == Ok((v, |w1|))
  {
    hide WU, RU8, WMany, RMany, WAnchor, RAnchor, ReadsBack;
    var head := WU(w, |v|, 8).value;
    forall k | 0 <= k < |v|
      ensures ReadsBack(WAnchor, RAnchor, d, true, v[k])
    {
      AnchorReadsBack(d, v[k]);
    }
    w1 := StepMany(WAnchor, RAnchor, d, true, head, v, 0);
    assert v[..0] == [];
    AnchorsLength(head, v, 0);
    var _ := StepU8(w, |v|, 8, d);
  }

  lemma StepLoudnessHead(w: BitSeq, v: Loudness, d: BitSeq) returns (w1: BitSeq)
    requires WLoudnessHead(w, v).Ok? && WLoudnessHead(w, v).value <= d && ExtensionFits(v)
    ensures w1 == WLoudnessHead(w, v).value
    ensures RLoudnessHead(d, |w|) == Ok((LoudnessHead(v.InfoType(), v.integrated, v.digitalPeak, v.truePeak), |w1|))
  {
    hide WU, RU8, WI16, RI16;
    InfoTypeBits(v);
    w1 := StepU8(w, v.InfoType(), 8, d);
    w1 := StepI16(w1, v.integrated, d);
    w1 := StepI16(w1, v.digitalPeak, d);
    if v.truePeak.Some? {
      w1 := StepI16(w1, v.truePeak.value, d);
    }
  }

  /** Each gate is recovered from the derived `info_type`. */
  lemma InfoTypeBits(v: Loudness)
    requires ExtensionFits(v)
    ensures v.InfoType() % 2 == (if v.truePeak.Some? then 1 else 0)
    ensures v.InfoType() / 2 % 2 == (if v.anchored.Some? then 1 else 0)
    ensures v.InfoType() / 4 * 4 == (if v.extension.Some? then v.extension.value.infoTypeBits else 0)
  {
    var e: int := if v.extension.Some? then v.extension.value.infoTypeBits / 4 else 0;
    var low := (if v.truePeak.Some? then 1 else 0) + (if v.anchored.Some? then 2 else 0);
    assert v.InfoType() == 4 * e + low;
    assert v.InfoType() / 2 == 2 * e + low / 2;
  }

  lemma StepLoudness(w: BitSeq, v: Loudness, d: BitSeq) returns (w1: BitSeq)
    requires |w| % 8 == 0 && WLoudness(w, v).Ok? && WLoudness(w, v).value <= d
    ensures w1 == WLoudness(w, v).value && w <= w1 && |w1| % 8 == 0
    ensures RLoudness(d, |w|) == Ok((v, |w1|))
  {
    hide WLoudnessHead, RLoudnessHead, WAnchors, RAnchors, WSized, RSized;
    InfoTypeBits(v);
    var head := WLoudnessHead(w, v).value;
    w1 := head;
    assert |w1| % 8 == 0;
    if v.anchored.Some? {
      w1 := WAnchors(head, v.anchored.value).value;
      var _ := StepAnchors(head, v.anchored.value, w1);
    }
    var anchors := w1;
    if v.extension.Some? {
      w1 := StepSized(anchors, v.extension.value.bytes, d);
    }
    if v.anchored.Some? {
      var _ := StepAnchors(head, v.anchored.value, d);
    }
    var _ := StepLoudnessHead(w, v, d);
  }

  lemma StepLayoutSelector(w: BitSeq, v: LayoutWithLoudness, d: BitSeq) returns (w1: BitSeq)
    requires LayoutCanonical(v) && WLayoutSelector(w, v).Ok? && WLayoutSelector(w, v).value <= d
    ensures w1 == WLayoutSelector(w, v).value
    ensures RLayoutSelector(d, |w|) == Ok((v.layout, v.reserved, |w1|))
  {
    hide WU, RU8;
    w1 := StepU8(w, v.layout.LayoutType(), 2, d);
    if v.layout.SystemLayout? {
      LayoutCodesInvert(Mono, Lfe, v.layout.system);
      w1 := StepU8(w1, v.layout.system.Value(), 4, d);
      w1 := StepU8(w1, v.reserved, 2, d);
    } else {
      w1 := StepU8(w1, v.reserved, 6, d);
    }
  }

  lemma StepMixLayout(w: BitSeq, v: LayoutWithLoudness, d: BitSeq) returns (w1: BitSeq)
    requires LayoutCanonical(v) && |w| % 8 == 0 && WMixLayout(w, v).Ok? && WMixLayout(w, v).value <= d
    ensures w1 == WMixLayout(w, v).value && w <= w1 && |w1| % 8 == 0 && |w| + 8 <= |w1|
    ensures RMixLayout(d, |w|) == Ok((v, |w1|))
  {
    hide WLayoutSelector, RLayoutSelector, WLoudness, RLoudness;
    var head := WLayoutSelector(w, v).value;
    w1 := StepLoudness(head, v.loudness, d);
    var _ := StepLayoutSelector(w, v, d);
  }

  lemma MixLayoutReadsBack(d: BitSeq, v: LayoutWithLoudness)
    requires LayoutCanonical(v)
    ensures ReadsBack(WMixLayout, RMixLayout, d, true, v)
  {
    hide WMixLayout, RMixLayout;
    forall w: BitSeq
      ensures ReadsBackAt(WMixLayout, RMixLayout, d, true, v, w)
    {
      if |w| % 8 == 0 && WMixLayout(w, v).Ok? {
        var _ := StepMixLayout(w, v, WMixLayout(w, v).value);
        if WMixLayout(w, v).value <= d {
          var _ := StepMixLayout(w, v, d);
        }
      }
    }
  }

  lemma StepMixGainDefinition(w: BitSeq, v: MixGainDefinition, d: BitSeq) returns (w1: BitSeq)
    requires |w| % 8 == 0 && WMixGainDefinition(w, v).Ok? && WMixGainDefinition(w, v).value <= d
    ensures w1 == WMixGainDefinition(w, v).value && w <= w1 && |w1| % 8 == 0
    ensures RMixGainDefinition(d, |w|) == Ok((v, |w1|))
  {
    hide WParamDefinition, RParamDefinition, WI16, RI16;
    var a := WParamDefinition(w, v.definition).value;
    var _ := StepParamDefinition(w, v.definition, d);
    w1 := StepI16(a, v.defaultMixGain, d);
  }

  lemma StepRendering(w: BitSeq, v: RenderingConfig, d: BitSeq) returns (w1: BitSeq)
    requires |w| % 8 == 0 && v.mode.Canonical() && WRendering(w, v).Ok? && WRendering(w, v).value <= d
    ensures w1 == WRendering(w, v).value && w <= w1 && |w1| % 8 == 0
    ensures RRendering(d, |w|) == Ok((v, |w1|))
  {
    hide WU, RU8, WSized, RSized;
    var a := WU(w, v.mode.Value(), 2).value;
    var b := WU(a, v.reserved, 6).value;
    assert |b| == |w| + 8;
    w1 := StepSized(b, v.extension, d);
    var _ := StepU8(w, v.mode.Value(), 2, d);
    var _ := StepU8(a, v.reserved, 6, d);
  }

  lemma TextReadsBack(d: BitSeq, v: seq<u8>)
    ensures ReadsBack(WString, RText, d, true, v)
  {
    hide WString, RString;
    forall w: BitSeq
      ensures ReadsBackAt(WString, RText, d, true, v, w)
    {
      if WString(w, v).Ok? && WString(w, v).value <= d {
        var _ := StepString(w, v, d);
        assert (v + [0])[..|v|] == v;
      }
    }
  }

  lemma StepTexts(w: BitSeq, v: seq<seq<u8>>, d: BitSeq) returns (w1: BitSeq)
    requires |w| % 8 == 0 && WMany(w, v, 0, WString).Ok? && WMany(w, v, 0, WString).value <= d
    ensures w1 == WMany(w, v, 0, WString).value && w <= w1 && |w1| % 8 == 0
    ensures RTexts(d, |w|, |v|) == Ok((v, |w1|))
  {
    hide WMany, RMany, RText, ReadsBack, WString;
    forall k | 0 <= k < |v|
      ensures ReadsBack(WString, RText, d, true, v[k])
    {
      TextReadsBack(d, v[k]);
    }
    w1 := StepMany(WString, RText, d, true, w, v, 0);
    assert v[..0] == [];
  }

  lemma StepSubMixElement(w: BitSeq, v: SubMixElement, d: BitSeq) returns (w1: BitSeq)
    requires v.rendering.mode.Canonical() && |w| % 8 == 0
    requires WSubMixElement(w, v).Ok? && WSubMixElement(w, v).value <= d
    ensures w1 == WSubMixElement(w, v).value && w <= w1 && |w1| % 8 == 0 && |w| + 8 <= |w1|
    ensures RSubMixElement(d, |w|, |v.annotations|) == Ok((v, |w1|))
  {
    hide WLeb, RLeb, WMany, RTexts, WRendering, RRendering, WMixGainDefinition, RMixGainDefinition, WString;
    var id := WLeb(w, v.audioElementId);
    assert |id| % 8 == 0;
    var texts := WMany(id, v.annotations, 0, WString).value;
    var rendering := WRendering(texts, v.rendering).value;
    w1 := WMixGainDefinition(rendering, v.mixGain).value;
    var _ := StepTexts(id, v.annotations, texts);
    var _ := StepRendering(texts, v.rendering, rendering);
    var _ := StepMixGainDefinition(rendering, v.mixGain, d);
    var _ := StepRendering(texts, v.rendering, d);
    var _ := StepTexts(id, v.annotations, d);
    var _ := StepLeb(w, v.audioElementId, d);
  }

  lemma SubMixElementReadsBack(d: BitSeq, v: SubMixElement, countLabel: nat)
    requires v.rendering.mode.Canonical() && |v.annotations| == countLabel
    ensures ReadsBack(WSubMixElement, SubMixElementReader(countLabel), d, true, v)
  {
    hide WSubMixElement, RSubMixElement;
    var rd := SubMixElementReader(countLabel);
    forall w: BitSeq
      ensures ReadsBackAt(WSubMixElement, rd, d, true, v, w)
    {
      if |w| % 8 == 0 && WSubMixElement(w, v).Ok? {
        var _ := StepSubMixElement(w, v, WSubMixElement(w, v).value);
        if WSubMixElement(w, v).value <= d {
          var _ := StepSubMixElement(w, v, d);
        }
      }
    }
  }

  lemma StepSubMixElements(w: BitSeq, v: seq<SubMixElement>, countLabel: nat, d: BitSeq) returns (w1: BitSeq)
    requires forall e | e in v :: e.rendering.mode.Canonical() && |e.annotations| == countLabel
    requires |w| % 8 == 0 && WCounted(w, v, WSubMixElement).Ok? && WCounted(w, v, WSubMixElement).value <= d
    ensures w1 == WCounted(w, v, WSubMixElement).value && w <= w1 && |w1| % 8 == 0 && |w| + 8 <= |w1|
    ensures RCounted(d, |w|, SubMixElementReader(countLabel)) == Ok((v, |w1|))
  {
    hide WCounted, RCounted, WSubMixElement, SubMixElementReader, ReadsBack;
    forall k | 0 <= k < |v|
      ensures ReadsBack(WSubMixElement, SubMixElementReader(countLabel), d, true, v[k])
    {
      assert v[k] in v;
      SubMixElementReadsBack(d, v[k], countLabel);
    }
    w1 := StepCounted(WSubMixElement, SubMixElementReader(countLabel), d, w, v);
  }

  lemma StepMixLayouts(w: BitSeq, v: seq<LayoutWithLoudness>, d: BitSeq) returns (w1: BitSeq)
    requires forall layout | layout in v :: LayoutCanonical(layout)
    requires |w| % 8 == 0 && WCounted(w, v, WMixLayout).Ok? && WCounted(w, v, WMixLayout).value <= d
    ensures w1 == WCounted(w, v, WMixLayout).value && w <= w1 && |w1| % 8 == 0
    ensures RCounted(d, |w|, RMixLayout) == Ok((v, |w1|))
  {
    hide WCounted, RCounted, WMixLayout, RMixLayout, ReadsBack, LayoutCanonical;
    forall k | 0 <= k < |v|
      ensures ReadsBack(WMixLayout, RMixLayout, d, true, v[k])
    {
      assert v[k] in v;
      MixLayoutReadsBack(d, v[k]);
    }
    w1 := StepCounted(WMixLayout, RMixLayout, d, w, v);
  }

  lemma StepSubMix(w: BitSeq, v: SubMix, countLabel: nat, d: BitSeq) returns (w1: BitSeq)
    requires SubMixCanonical(v) && SubMixAnnotated(v, countLabel)
    requires |w| % 8 == 0 && WSubMix(w, v).Ok? && WSubMix(w, v).value <= d
    ensures w1 == WSubMix(w, v).value && w <= w1 && |w1| % 8 == 0 && |w| + 8 <= |w1|
    ensures RSubMix(d, |w|, countLabel) == Ok((v, |w1|))
  {
    hide WCounted, RCounted, WSubMixElement, SubMixElementReader, WMixGainDefinition, RMixGainDefinition;
    hide WMixLayout, RMixLayout, LayoutCanonical;
    var elements := WCounted(w, v.elements, WSubMixElement).value;
    var gain := WMixGainDefinition(elements, v.outputMixGain).value;
    w1 := WCounted(gain, v.layouts, WMixLayout).value;
    var _ := StepSubMixElements(w, v.elements, countLabel, elements);
    var _ := StepMixGainDefinition(elements, v.outputMixGain, gain);
    var _ := StepMixLayouts(gain, v.layouts, d);
    var _ := StepMixGainDefinition(elements, v.outputMixGain, d);
    var _ := StepSubMixElements(w, v.elements, countLabel, d);
  }

  lemma SubMixReadsBack(d: BitSeq, v: SubMix, countLabel: nat)
    requires SubMixCanonical(v) && SubMixAnnotated(v, countLabel)
    ensures ReadsBack(WSubMix, SubMixReader(countLabel), d, true, v)
  {
    hide WSubMix, RSubMix, SubMixCanonical, SubMixAnnotated;
    var rd := SubMixReader(countLabel);
    forall w: BitSeq
      ensures ReadsBackAt(WSubMix, rd, d, true, v, w)
    {
      if |w| % 8 == 0 && WSubMix(w, v).Ok? {
        var _ := StepSubMix(w, v, countLabel, WSubMix(w, v).value);
        if WSubMix(w, v).value <= d {
          var _ := StepSubMix(w, v, countLabel, d);
        }
      }
    }
  }

  lemma StepSubMixes(w: BitSeq, v: seq<SubMix>, countLabel: nat, d: BitSeq) returns (w1: BitSeq)
    requires forall s | s in v :: SubMixCanonical(s) && SubMixAnnotated(s, countLabel)
    requires |w| % 8 == 0 && WCounted(w, v, WSubMix).Ok? && WCounted(w, v, WSubMix).value <= d
    ensures w1 == WCounted(w, v, WSubMix).value && w <= w1 && |w1| % 8 == 0
    ensures RCounted(d, |w|, SubMixReader(countLabel)) == Ok((v, |w1|))
  {
    hide WCounted, RCounted, WSubMix, SubMixReader, ReadsBack, SubMixCanonical, SubMixAnnotated;
    forall k | 0 <= k < |v|
      ensures ReadsBack(WSubMix, SubMixReader(countLabel), d, true, v[k])
    {
      assert v[k] in v;
      SubMixReadsBack(d, v[k], countLabel);
    }
    w1 := StepCounted(WSubMix, SubMixReader(countLabel), d, w, v);
  }

  lemma StepLanguages(w: BitSeq, v: seq<seq<u8>>, d: BitSeq) returns (w1: BitSeq)
    requires |w| % 8 == 0 && WCounted(w, v, WString).Ok? && WCounted(w, v, WString).value <= d
    ensures w1 == WCounted(w, v, WString).value && w <= w1 && |w1| % 8 == 0
    ensures RCounted(d, |w|, RText) == Ok((v, |w1|))
  {
    hide WCounted, RCounted, WString, RText, ReadsBack;
    forall k | 0 <= k < |v|
      ensures ReadsBack(WString, RText, d, true, v[k])
    {
      TextReadsBack(d, v[k]);
    }
    w1 := StepCounted(WString, RText, d, w, v);
  }

  /** Write then read: one label count governs every annotation list, with no count of its own on the wire. */
  lemma StepMixBody(w: BitSeq, v: MixPresentation, d: BitSeq) returns (w1: BitSeq)
    requires MixCanonical(v) && |w| % 8 == 0 && WMixBody(w, v).Ok? && WMixBody(w, v).value <= d
    ensures w1 == WMixBody(w, v).value && w <= w1 && |w1| % 8 == 0
    ensures RMixBody(d, |w|) == Ok((v, |w1|))
  {
    hide WLeb, RLeb, WCounted, RCounted, WMany, RTexts, WString, RText, WSubMix, SubMixReader;
    hide SubMixCanonical, SubMixAnnotated;
    var id := WLeb(w, v.mixPresentationId);
    assert |id| % 8 == 0;
    var languages := WCounted(id, v.annotationsLanguage, WString).value;
    var texts := WMany(languages, v.presentationAnnotations, 0, WString).value;
    w1 := WCounted(texts, v.subMixes, WSubMix).value;
    var _ := StepLanguages(id, v.annotationsLanguage, languages);
    var _ := StepTexts(languages, v.presentationAnnotations, texts);
    var _ := StepSubMixes(texts, v.subMixes, |v.annotationsLanguage|, d);
    var _ := StepTexts(languages, v.presentationAnnotations, d);
    var _ := StepLanguages(id, v.annotationsLanguage, d);
    var _ := StepLeb(w, v.mixPresentationId, d);
  }

  // ------------------------------------------------------------ read, then write

  lemma AnchorsRewrite(d: BitSeq)
    ensures Rewrites(WAnchor, RAnchor, Fixed, d)
  {
    hide WU, RU8, WI16, RI16;
    forall p: nat, w: BitSeq
      ensures RewritesAt(WAnchor, RAnchor, Fixed, d, p, w)
    {
      if p <= |d| && RAnchor(d, p).Ok? {
        AnchorAgain(d, p, w);
      }
    }
  }

  lemma AnchorAgain(d: BitSeq, p: nat, w: BitSeq)
    requires p <= |d| && RAnchor(d, p).Ok?
    ensures RewritesAt(WAnchor, RAnchor, Fixed, d, p, w)
  {
    hide WU, RU8, WI16, RI16, Canon;
    CanonStart(d, p, w);
    var a := AgainU8(d, p, p, 8, w, w);
    var _ := AgainI16(d, p, p + 8, w, a);
  }

  lemma AgainAnchors(d: BitSeq, p0: nat, p: nat, w0: BitSeq, w: BitSeq) returns (w1: BitSeq)
    requires Canon(d, p0, p, w0, w) && p % 8 == 0 && RAnchors(d, p).Ok?
    ensures var (v, q) := RAnchors(d, p).value;
            WAnchors(w, v) == Ok(w1) && Canon(d, p0, q, w0, w1) && q % 8 == 0 && |w1| - |w| == q - p
  {
    hide WU, RU8, WMany, RMany, WAnchor, RAnchor, Rewrites, Canon;
    w1 := AgainU8(d, p0, p, 8, w0, w);
    AnchorsRewrite(d);
    var count := RU8(d, p, 8).value.0;
    FixedItems(d, p + 8, count, RAnchor);
    w1 := AgainMany(WAnchor, RAnchor, Fixed, d, p0, p + 8, count, [], w0, w1);
  }

  /** A decoded `info_type` is the one its gates derive again. */
  lemma InfoTypeAgain(v: Loudness, infoType: u8)
    requires v.truePeak.Some? <==> infoType % 2 != 0
    requires v.anchored.Some? <==> infoType / 2 % 2 != 0
    requires v.extension.Some? <==> infoType / 4 * 4 != 0
    requires v.extension.Some? ==> v.extension.value.infoTypeBits == infoType / 4 * 4
    ensures ExtensionFits(v) && v.InfoType() == infoType
  {
    var e := infoType / 4;
    assert infoType == 4 * e + infoType / 2 % 2 * 2 + infoType % 2;
    assert 4 * e / 4 == e;
    if v.extension.Some? {
      assert v.extension.value.infoTypeBits == 4 * e;
    }
  }

  lemma AgainLoudnessHead(d: BitSeq, p0: nat, p: nat, v: Loudness, w0: BitSeq, w: BitSeq) returns (w1: BitSeq)
    requires Canon(d, p0, p, w0, w) && RLoudnessHead(d, p).Ok? && p % 8 == 0
    requires RLoudnessHead(d, p).value.0 == LoudnessHead(v.InfoType(), v.integrated, v.digitalPeak, v.truePeak)
    ensures WLoudnessHead(w, v) == Ok(w1) && Canon(d, p0, RLoudnessHead(d, p).value.1, w0, w1)
    ensures RLoudnessHead(d, p).value.1 % 8 == 0 && |w1| - |w| == RLoudnessHead(d, p).value.1 - p
  {
    hide WU, RU8, WI16, RI16, Canon;
    w1 := AgainU8(d, p0, p, 8, w0, w);
    w1 := AgainI16(d, p0, p + 8, w0, w1);
    w1 := AgainI16(d, p0, p + 24, w0, w1);
    if v.truePeak.Some? {
      w1 := AgainI16(d, p0, p + 40, w0, w1);
    }
  }

  lemma AgainLoudness(d: BitSeq, p0: nat, p: nat, w0: BitSeq, w: BitSeq) returns (w1: BitSeq)
    requires Canon(d, p0, p, w0, w) && p % 8 == 0 && RLoudness(d, p).Ok?
    ensures var (v, q) := RLoudness(d, p).value;
            && WLoudness(w, v) == Ok(w1) && Canon(d, p0, q, w0, w1) && q % 8 == 0
            && Tight(q - p, |w1| - |w|, LoudnessMinimal(d, p))
  {
    hide LebMinimal, WLoudnessHead, WAnchors, RAnchors, WSized, RSized, Canon, ExtensionFits;
    var v := RLoudness(d, p).value.0;
    var (head, q) := RLoudnessHead(d, p).value;
    InfoTypeAgain(v, head.infoType);
    w1 := AgainLoudnessHead(d, p0, p, v, w0, w);
    if v.anchored.Some? {
      w1 := AgainAnchors(d, p0, q, w0, w1);
      q := RAnchors(d, q).value.1;
    }
    if v.extension.Some? {
      w1 := AgainSized(d, p0, q, w0, w1);
    }
  }

  lemma AgainLayoutSelector(d: BitSeq, p0: nat, p: nat, v: LayoutWithLoudness, w0: BitSeq, w: BitSeq)
      returns (w1: BitSeq)
    requires Canon(d, p0, p, w0, w) && RLayoutSelector(d, p).Ok?
    requires (RLayoutSelector(d, p).value.0, RLayoutSelector(d, p).value.1) == (v.layout, v.reserved)
    ensures WLayoutSelector(w, v) == Ok(w1) && Canon(d, p0, p + 8, w0, w1)
    ensures RLayoutSelector(d, p).value.2 == p + 8 && LayoutCanonical(v) && |w1| == |w| + 8
  {
    hide WU, RU8, Canon;
    PowersOfTwo();
    w1 := AgainU8(d, p0, p, 2, w0, w);
    var layoutType := RU8(d, p, 2).value.0;
    if layoutType == 2 {
      LayoutValuesInvert(RU8(d, p + 2, 4).value.0);
      w1 := AgainU8(d, p0, p + 2, 4, w0, w1);
      w1 := AgainU8(d, p0, p + 6, 2, w0, w1);
    } else {
      w1 := AgainU8(d, p0, p + 2, 6, w0, w1);
    }
  }

  lemma MixLayoutAgain(d: BitSeq, p: nat, w: BitSeq)
    requires p % 8 == 0 && p <= |d| && RMixLayout(d, p).Ok?
    ensures RewritesAt(WMixLayout, RMixLayout, MixLayoutMinimal, d, p, w)
    ensures var (v, q) := RMixLayout(d, p).value; LayoutCanonical(v) && q % 8 == 0 && q <= |d|
  {
    hide WLayoutSelector, RLayoutSelector, WLoudness, RLoudness, LoudnessMinimal, LayoutCanonical;
    var v := RMixLayout(d, p).value.0;
    var a := AgainLayoutSelector(d, p, p, v, w, w);
    var _ := AgainLoudness(d, p, p + 8, w, a);
  }

  lemma AgainMixLayouts(d: BitSeq, p0: nat, p: nat, w0: BitSeq, w: BitSeq) returns (w1: BitSeq)
    requires Canon(d, p0, p, w0, w) && p % 8 == 0 && RCounted(d, p, RMixLayout).Ok?
    ensures var (v, q) := RCounted(d, p, RMixLayout).value;
            && WCounted(w, v, WMixLayout) == Ok(w1) && Canon(d, p0, q, w0, w1) && q % 8 == 0
            && Tight(q - p, |w1| - |w|, CountedMinimal(d, p, RMixLayout, MixLayoutMinimal))
            && forall layout | layout in v :: LayoutCanonical(layout)
  {
    hide WMixLayout, RMixLayout, MixLayoutMinimal, CountedMinimal, Canon, LayoutCanonical;
    forall q: nat, x: BitSeq
      ensures RewritesAt(WMixLayout, RMixLayout, MixLayoutMinimal, d, q, x)
    {
      if q % 8 == 0 && q <= |d| && RMixLayout(d, q).Ok? {
        MixLayoutAgain(d, q, x);
      }
    }
    w1 := AgainCounted(WMixLayout, RMixLayout, MixLayoutMinimal, d, p0, p, w0, w);
    forall q: nat | q % 8 == 0 && q <= |d| && RMixLayout(d, q).Ok?
      ensures LayoutCanonical(RMixLayout(d, q).value.0)
      ensures RMixLayout(d, q).value.1 % 8 == 0 && RMixLayout(d, q).value.1 <= |d|
    {
      MixLayoutAgain(d, q, []);
    }
    CountedSatisfy(d, p, RMixLayout, LayoutCanonical);
  }

  lemma AgainMixGainDefinition(d: BitSeq, p0: nat, p: nat, w0: BitSeq, w: BitSeq) returns (w1: BitSeq)
    requires Canon(d, p0, p, w0, w) && p % 8 == 0 && RMixGainDefinition(d, p).Ok?
    ensures var (v, q) := RMixGainDefinition(d, p).value;
            && WMixGainDefinition(w, v) == Ok(w1) && Canon(d, p0, q, w0, w1) && q % 8 == 0
            && Tight(q - p, |w1| - |w|, DefinitionMinimal(d, p))
  {
    hide DefinitionMinimal, WParamDefinition, RParamDefinition, WI16, RI16, Canon;
    w1 := AgainParamDefinition(d, p0, p, w0, w);
    w1 := AgainI16(d, p0, RParamDefinition(d, p).value.1, w0, w1);
  }

  lemma AgainRendering(d: BitSeq, p0: nat, p: nat, w0: BitSeq, w: BitSeq) returns (w1: BitSeq)
    requires Canon(d, p0, p, w0, w) && p % 8 == 0 && RRendering(d, p).Ok?
    ensures var (v, q) := RRendering(d, p).value;
            && WRendering(w, v) == Ok(w1) && Canon(d, p0, q, w0, w1) && q % 8 == 0 && v.mode.Canonical()
            && Tight(q - p, |w1| - |w|, LebMinimal(d, p + 8))
  {
    hide LebMinimal, WU, RU8, WSized, RSized, Canon;
    w1 := AgainU8(d, p0, p, 2, w0, w);
    w1 := AgainU8(d, p0, p + 2, 6, w0, w1);
    w1 := AgainSized(d, p0, p + 8, w0, w1);
  }

  lemma TextsRewrite(d: BitSeq)
    ensures Rewrites(WString, RText, Fixed, d)
  {
    hide WString, RString;
    forall p: nat, w: BitSeq
      ensures RewritesAt(WString, RText, Fixed, d, p, w)
    {
      if p % 8 == 0 && p <= |d| && RText(d, p).Ok? {
        var _ := AgainString(d, p, p, w, w);
      }
    }
  }

  lemma AgainTexts(d: BitSeq, p0: nat, p: nat, count: nat, w0: BitSeq, w: BitSeq) returns (w1: BitSeq)
    requires Canon(d, p0, p, w0, w) && p % 8 == 0 && RTexts(d, p, count).Ok?
    ensures var (v, q) := RTexts(d, p, count).value;
            && WMany(w, v, 0, WString) == Ok(w1) && Canon(d, p0, q, w0, w1) && q % 8 == 0 && |v| == count
            && |w1| - |w| == q - p
  {
    hide WMany, RMany, WString, RText, Rewrites, Canon;
    TextsRewrite(d);
    FixedItems(d, p, count, RText);
    w1 := AgainMany(WString, RText, Fixed, d, p0, p, count, [], w0, w);
  }

  lemma AgainLanguages(d: BitSeq, p0: nat, p: nat, w0: BitSeq, w: BitSeq) returns (w1: BitSeq)
    requires Canon(d, p0, p, w0, w) && p % 8 == 0 && RCounted(d, p, RText).Ok?
    ensures var (v, q) := RCounted(d, p, RText).value;
            && WCounted(w, v, WString) == Ok(w1) && Canon(d, p0, q, w0, w1) && q % 8 == 0
            && Tight(q - p, |w1| - |w|, LebMinimal(d, p))
  {
    hide LebMinimal, RLeb, WCounted, RCounted, WString, RText, Rewrites, Canon;
    TextsRewrite(d);
    if RLeb(d, p).Ok? {
      FixedItems(d, End(RLeb(d, p)), RLeb(d, p).value.0, RText);
    }
    w1 := AgainCounted(WString, RText, Fixed, d, p0, p, w0, w);
  }

  lemma AgainSubMixElement(d: BitSeq, p0: nat, p: nat, countLabel: nat, w0: BitSeq, w: BitSeq) returns (w1: BitSeq)
    requires Canon(d, p0, p, w0, w) && p % 8 == 0 && RSubMixElement(d, p, countLabel).Ok?
    ensures var (v, q) := RSubMixElement(d, p, countLabel).value;
            && WSubMixElement(w, v) == Ok(w1) && Canon(d, p0, q, w0, w1) && q % 8 == 0
            && v.rendering.mode.Canonical() && |v.annotations| == countLabel
            && Tight(q - p, |w1| - |w|, SubMixElementMinimal(d, p, countLabel))
  {
    hide LebMinimal, DefinitionMinimal;
    hide WLeb, RLeb, WMany, RTexts, WRendering, RRendering, WMixGainDefinition, RMixGainDefinition, WString, Canon;
    var a := RLeb(d, p).value.1;
    assert a % 8 == 0;
    var b := RTexts(d, a, countLabel).value.1;
    var c := RRendering(d, b).value.1;
    w1 := AgainLeb(d, p0, p, w0, w);
    w1 := AgainTexts(d, p0, a, countLabel, w0, w1);
    w1 := AgainRendering(d, p0, b, w0, w1);
    w1 := AgainMixGainDefinition(d, p0, c, w0, w1);
  }

  predicate ElementGood(v: SubMixElement, countLabel: nat) {
    v.rendering.mode.Canonical() && |v.annotations| == countLabel
  }

  lemma SubMixElementAgain(d: BitSeq, p: nat, countLabel: nat, w: BitSeq)
    requires p % 8 == 0 && p <= |d| && RSubMixElement(d, p, countLabel).Ok?
    ensures RewritesAt(WSubMixElement, SubMixElementReader(countLabel), SubMixElementTest(countLabel), d, p, w)
    ensures var (v, q) := RSubMixElement(d, p, countLabel).value;
            ElementGood(v, countLabel) && q % 8 == 0 && q <= |d|
  {
    hide WSubMixElement, RSubMixElement, SubMixElementMinimal;
    var _ := AgainSubMixElement(d, p, p, countLabel, w, w);
  }

  lemma AgainSubMixElements(d: BitSeq, p0: nat, p: nat, countLabel: nat, w0: BitSeq, w: BitSeq) returns (w1: BitSeq)
    requires Canon(d, p0, p, w0, w) && p % 8 == 0 && RCounted(d, p, SubMixElementReader(countLabel)).Ok?
    ensures var (v, q) := RCounted(d, p, SubMixElementReader(countLabel)).value;
            && WCounted(w, v, WSubMixElement) == Ok(w1) && Canon(d, p0, q, w0, w1) && q % 8 == 0
            && Tight(q - p, |w1| - |w|,
                     CountedMinimal(d, p, SubMixElementReader(countLabel), SubMixElementTest(countLabel)))
            && forall e | e in v :: ElementGood(e, countLabel)
  {
    hide WSubMixElement, RSubMixElement, SubMixElementMinimal, CountedMinimal, ElementGood, Canon;
    var rd, test := SubMixElementReader(countLabel), SubMixElementTest(countLabel);
    forall q: nat, x: BitSeq
      ensures RewritesAt(WSubMixElement, rd, test, d, q, x)
    {
      if q % 8 == 0 && q <= |d| && rd(d, q).Ok? {
        SubMixElementAgain(d, q, countLabel, x);
      }
    }
    w1 := AgainCounted(WSubMixElement, rd, test, d, p0, p, w0, w);
    forall q: nat | q % 8 == 0 && q <= |d| && rd(d, q).Ok?
      ensures ElementGood(rd(d, q).value.0, countLabel)
      ensures rd(d, q).value.1 % 8 == 0 && rd(d, q).value.1 <= |d|
    {
      SubMixElementAgain(d, q, countLabel, []);
    }
    CountedSatisfy(d, p, rd, e => ElementGood(e, countLabel));
  }

  predicate SubMixGood(v: SubMix, countLabel: nat) {
    SubMixCanonical(v) && SubMixAnnotated(v, countLabel)
  }

  lemma SubMixAgain(d: BitSeq, p: nat, countLabel: nat, w: BitSeq)
    requires p % 8 == 0 && p <= |d| && RSubMix(d, p, countLabel).Ok?
    ensures RewritesAt(WSubMix, SubMixReader(countLabel), SubMixTest(countLabel), d, p, w)
    ensures var (v, q) := RSubMix(d, p, countLabel).value; SubMixGood(v, countLabel) && q % 8 == 0 && q <= |d|
  {
    hide WCounted, RCounted, WSubMixElement, SubMixElementReader, WMixGainDefinition, RMixGainDefinition;
    hide WMixLayout, RMixLayout, LayoutCanonical, CountedMinimal, DefinitionMinimal, SubMixElementTest;
    hide MixLayoutMinimal;
    var (elements, a) := RCounted(d, p, SubMixElementReader(countLabel)).value;
    assert Canon(d, p, p, w, w);
    var w1 := AgainSubMixElements(d, p, p, countLabel, w, w);
    w1 := AgainMixGainDefinition(d, p, a, w, w1);
    w1 := AgainMixLayouts(d, p, RMixGainDefinition(d, a).value.1, w, w1);
    assert forall e | e in elements :: ElementGood(e, countLabel);
  }

  lemma AgainSubMixes(d: BitSeq, p0: nat, p: nat, countLabel: nat, w0: BitSeq, w: BitSeq) returns (w1: BitSeq)
    requires Canon(d, p0, p, w0, w) && p % 8 == 0 && RCounted(d, p, SubMixReader(countLabel)).Ok?
    ensures var (v, q) := RCounted(d, p, SubMixReader(countLabel)).value;
            && WCounted(w, v, WSubMix) == Ok(w1) && Canon(d, p0, q, w0, w1) && q % 8 == 0
            && Tight(q - p, |w1| - |w|, CountedMinimal(d, p, SubMixReader(countLabel), SubMixTest(countLabel)))
            && forall s | s in v :: SubMixGood(s, countLabel)
  {
    hide WSubMix, RSubMix, SubMixMinimal, CountedMinimal, SubMixGood, Canon;
    var rd, test := SubMixReader(countLabel), SubMixTest(countLabel);
    forall q: nat, x: BitSeq
      ensures RewritesAt(WSubMix, rd, test, d, q, x)
    {
      if q % 8 == 0 && q <= |d| && rd(d, q).Ok? {
        SubMixAgain(d, q, countLabel, x);
      }
    }
    w1 := AgainCounted(WSubMix, rd, test, d, p0, p, w0, w);
    forall q: nat | q % 8 == 0 && q <= |d| && rd(d, q).Ok?
      ensures SubMixGood(rd(d, q).value.0, countLabel)
      ensures rd(d, q).value.1 % 8 == 0 && rd(d, q).value.1 <= |d|
    {
      SubMixAgain(d, q, countLabel, []);
    }
    CountedSatisfy(d, p, rd, s => SubMixGood(s, countLabel));
  }

  /** Read then write: what is read is canonical, its annotation counts agree, and it is written again canonically. */
  lemma AgainMixBody(d: BitSeq, p0: nat, p: nat, w0: BitSeq, w: BitSeq) returns (w1: BitSeq)
    requires Canon(d, p0, p, w0, w) && p % 8 == 0 && RMixBody(d, p).Ok?
    ensures var (v, q) := RMixBody(d, p).value;
            && WMixBody(w, v) == Ok(w1) && Canon(d, p0, q, w0, w1) && q % 8 == 0 && MixCanonical(v)
            && Tight(q - p, |w1| - |w|, MixMinimal(d, p))
  {
    hide LebMinimal, CountedMinimal, SubMixTest;
    hide WLeb, RLeb, WCounted, RCounted, WMany, RTexts, WString, RText, WSubMix, SubMixReader;
    hide SubMixCanonical, SubMixAnnotated, Canon;
    var a := RLeb(d, p).value.1;
    assert a % 8 == 0;
    var (languages, b) := RCounted(d, a, RText).value;
    var (_, c) := RTexts(d, b, |languages|).value;
    w1 := AgainLeb(d, p0, p, w0, w);
    w1 := AgainLanguages(d, p0, a, w0, w1);
    w1 := AgainTexts(d, p0, b, |languages|, w0, w1);
    w1 := AgainSubMixes(d, p0, c, |languages|, w0, w1);
    assert forall s | s in RMixBody(d, p).value.0.subMixes :: SubMixGood(s, |languages|);
  }
}
