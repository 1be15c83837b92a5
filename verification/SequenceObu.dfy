/**
  One OBU of a flat sequence: which syntax its header selects, what it publishes to the registry, and
  the round trip in both directions under that registry.
*/
module SequenceObus {
  import opened Core
  import opened Bits
  import opened Leb128
  import opened Obus
  import opened ParameterBlocks
  import opened SequenceHeaders
  import opened CodecConfigs
  import opened AudioElements
  import opened MixPresentations
  import opened AudioFrames

  datatype SequenceObu =
    | IaHeader(ia: Obu<IaSequenceHeader>)
    | Codec(codec: Obu<CodecConfig>)
    | Element(element: Obu<AudioElement>)
    | Mix(mix: Obu<MixPresentation>)
    | Block(block: Obu<ParameterBlock>)
    | Ungoverned(header: ObuHeader, bytes: seq<u8>)
    | Delimiter(delimiter: Obu<()>)
    | Frame(frame: Obu<AudioFrame>)
    | Unknown(header: ObuHeader, bytes: seq<u8>)
  {
    function Header(): ObuHeader {
      match this
      case IaHeader(o) => o.header
      case Codec(o) => o.header
      case Element(o) => o.header
      case Mix(o) => o.header
      case Block(o) => o.header
      case Ungoverned(h, _) => h
      case Delimiter(o) => o.header
      case Frame(o) => o.header
      case Unknown(h, _) => h
    }
  }

  // ------------------------------------------------------------ the registry

  function ReconGates(t: ElementType): seq<bool> {
    if t.ChannelBased? then seq(|t.layers|, i requires 0 <= i < |t.layers| => t.layers[i].reconGainIsPresent) else []
  }

  /** The definitions of an Audio Element; extension definitions are opaque and govern nothing. */
  function ElementDefinitions(params: seq<ElementParam>, gates: seq<bool>): Registry {
    if params == [] then []
    else
      var rest := ElementDefinitions(params[1..], gates);
      match params[0]
      case DemixingParam(definition, _, _, _, _) => [Registered(definition, DemixingContext)] + rest
      case ReconGainParam(definition) => [Registered(definition, ReconGainContext(gates))] + rest
      case ExtensionParam(_, _) => rest
  }

  function GainDefinitions(elements: seq<SubMixElement>): Registry {
    seq(|elements|, i requires 0 <= i < |elements| => Registered(elements[i].mixGain.definition, MixGainContext))
  }

  function MixDefinitions(subMixes: seq<SubMix>): Registry {
    if subMixes == [] then []
    else
      GainDefinitions(subMixes[0].elements) + [Registered(subMixes[0].outputMixGain.definition, MixGainContext)]
      + MixDefinitions(subMixes[1..])
  }

  function ObserveElement(registry: Registry, e: AudioElement): Registry {
    registry + ElementDefinitions(e.params, ReconGates(e.elementType))
  }

  function ObserveMix(registry: Registry, m: MixPresentation): Registry {
    registry + MixDefinitions(m.subMixes)
  }

  /** The registry after an OBU; only the two descriptors that own definitions change it. */
  function Observe(registry: Registry, o: SequenceObu): (r: Registry)
    ensures registry <= r
  {
    match o
    case Element(e) => ObserveElement(registry, e.payload)
    case Mix(m) => ObserveMix(registry, m.payload)
    case _ => registry
  }

  // ------------------------------------------------------ payloads and framing

  /** The payload a payload writer leaves behind: the fields, then the payload's own trailing bytes. */
  function WithTrailing(body: Result<BitSeq>, trailing: seq<u8>): Result<BitSeq> {
    var body :- body;
    Ok(WBytes(body, trailing))
  }

  function WHeaderPayload(v: IaSequenceHeader): Result<BitSeq> {
    WithTrailing(WHeaderBody([], v), v.trailing)
  }

  function WCodecPayload(v: CodecConfig): Result<BitSeq> {
    WithTrailing(WCodecBody([], v), v.trailing)
  }

  function WElementPayload(v: AudioElement): Result<BitSeq> {
    WithTrailing(WElementBody([], v), v.trailing)
  }

  function WMixPayload(v: MixPresentation): Result<BitSeq> {
    WithTrailing(WMixBody([], v), v.trailing)
  }

  function WGovernedBlock(registry: Registry, block: ParameterBlock): Result<BitSeq> {
    var governing := Get(registry, block.parameterId);
    if governing.None? then Err(NoGoverningParamDefinition)
    else WParameterBlock([], governing.value.definition, governing.value.context, block)
  }

  function PHeader(h: ObuHeader, window: BitSeq): Result<(IaSequenceHeader, nat)> {
    RHeaderBody(window, 0)
  }

  function PCodec(h: ObuHeader, window: BitSeq): Result<(CodecConfig, nat)> {
    RCodecBody(window, 0)
  }

  function PElement(h: ObuHeader, window: BitSeq): Result<(AudioElement, nat)> {
    RElementBody(window, 0)
  }

  function PMix(h: ObuHeader, window: BitSeq): Result<(MixPresentation, nat)> {
    RMixBody(window, 0)
  }

  function PParameterId(h: ObuHeader, window: BitSeq): Result<(u32, nat)> {
    RLeb(window, 0)
  }

  function PBlock(registry: Registry): PayloadReader<ParameterBlock> {
    (h, window) => RParameterBlock(window, 0, registry)
  }

  function PRest(h: ObuHeader, window: BitSeq): Result<(seq<u8>, nat)> {
    RRest(window, 0)
  }

  function PDelimiter(h: ObuHeader, window: BitSeq): Result<((), nat)> {
    Ok(((), 0))
  }

  function PFrame(h: ObuHeader, window: BitSeq): Result<(AudioFrame, nat)> {
    RAudioFrame(window, 0, h)
  }

  /** One OBU as `write_parsed_sequence` writes it. */
  function WSeqObu(w: BitSeq, registry: Registry, o: SequenceObu): (r: Result<BitSeq>)
    ensures r.Ok? ==> w <= r.value && |w| + 16 <= |r.value|
  {
    hide WObuWith, WHeaderPayload, WCodecPayload, WElementPayload, WMixPayload, WGovernedBlock, WAudioFrame, WObu,
         BytesBits;
    match o
    case IaHeader(o) => WObuWith(w, o.header, WHeaderPayload(o.payload), o.trailing)
    case Codec(o) => WObuWith(w, o.header, WCodecPayload(o.payload), o.trailing)
    case Element(o) => WObuWith(w, o.header, WElementPayload(o.payload), o.trailing)
    case Mix(o) => WObuWith(w, o.header, WMixPayload(o.payload), o.trailing)
    case Block(o) => WObuWith(w, o.header, WGovernedBlock(registry, o.payload), o.trailing)
    case Ungoverned(h, bytes) => WObu(w, h, BytesBits(bytes))
    case Delimiter(o) => WObuWith(w, o.header, Ok([]), o.trailing)
    case Frame(o) => WObuWith(w, o.header, WAudioFrame([], o.header, o.payload), o.trailing)
    case Unknown(h, bytes) => WObu(w, h, BytesBits(bytes))
  }

  /** The first look at a Parameter Block, on a clone of the cursor: only its id. */
  function RInspectedId(d: BitSeq, p: nat): Result<u32> {
    hide RObu;
    var (inspected, _) :- RObu(d, p, PParameterId);
    Ok(inspected.payload)
  }

  function RBlockObu(d: BitSeq, p: nat, registry: Registry): Result<(SequenceObu, nat)> {
    hide RObu, Get;
    var id :- RInspectedId(d, p);
    if Get(registry, id).Some? then
      var (o, q) :- RObu(d, p, PBlock(registry));
      Ok((Block(o), q))
    else
      var (o, q) :- RObu(d, p, PRest);
      Ok((Ungoverned(o.header, o.payload), q))
  }

  /** `SequenceReader::next_obu`: the header selects the payload syntax. */
  function RSeqObu(d: BitSeq, p: nat, registry: Registry): (r: Result<(SequenceObu, nat)>)
    ensures r.Ok? ==> p + 16 <= r.value.1 <= |d|
  {
    hide RHeaderParts, RObu;
    var parts :- RHeaderParts(d, p);
    match parts.header.obuType
    case IaSequenceHeaderObu => var (o, q) :- RObu(d, p, PHeader); Ok((IaHeader(o), q))
    case CodecConfigObu => var (o, q) :- RObu(d, p, PCodec); Ok((Codec(o), q))
    case AudioElementObu => var (o, q) :- RObu(d, p, PElement); Ok((Element(o), q))
    case MixPresentationObu => var (o, q) :- RObu(d, p, PMix); Ok((Mix(o), q))
    case ParameterBlockObu => RBlockObu(d, p, registry)
    case TemporalDelimiterObu => var (o, q) :- RObu(d, p, PDelimiter); Ok((Delimiter(o), q))
    case ReservedObu(_) => var (o, q) :- RObu(d, p, PRest); Ok((Unknown(o.header, o.payload), q))
    case AudioFrameObu => var (o, q) :- RObu(d, p, PFrame); Ok((Frame(o), q))
    case AudioFrameIdObu(_) => var (o, q) :- RObu(d, p, PFrame); Ok((Frame(o), q))
  }

  // ---------------------------------------------------------- well-formedness

  /** What an opaque block's first field names; without one the reader cannot classify it. */
  predicate Nameless(registry: Registry, payload: BitSeq) {
    RLeb(payload, 0).Ok? && Get(registry, RLeb(payload, 0).value.0).None?
  }

  /**
    The states of an OBU that the reader can produce. The writer accepts more: each conjunct names one
    family of models whose bytes read back as something else.
  */
  predicate WellFormed(registry: Registry, o: SequenceObu) {
    && HeaderCanonical(o.Header())
    && match o
       case IaHeader(o) => o.header.obuType.IaSequenceHeaderObu? && o.payload.trailing == []
       case Codec(o) =>
         && o.header.obuType.CodecConfigObu? && o.payload.trailing == []
         && Typed(o.payload.codecId, o.payload.decoderConfig)
         && (o.payload.decoderConfig.RawConfig? ==> o.trailing == [])
       case Element(o) =>
         && o.header.obuType.AudioElementObu? && ElementCanonical(o.payload)
         && (o.payload.elementType.ReservedType? ==> o.trailing == [])
       case Mix(o) => o.header.obuType.MixPresentationObu? && MixCanonical(o.payload)
       case Block(o) => o.header.obuType.ParameterBlockObu? && BlockClean(o.payload)
       case Ungoverned(h, bytes) => h.obuType.ParameterBlockObu? && Nameless(registry, BytesBits(bytes))
       case Delimiter(o) => o.header.obuType.TemporalDelimiterObu?
       case Frame(o) => o.header.obuType.IsAudioFrame() && o.trailing == []
       case Unknown(h, _) => h.obuType.ReservedObu?
  }

  // ------------------------------------------------------------ write, then read

  lemma NothingAppended(body: BitSeq)
    ensures WBytes(body, []) == body
  {
    assert BytesBits([]) == [];
  }

  /** A payload was written, in whole bytes, and it is followed by the trailing bytes or by nothing. */
  lemma BodyThenTrailing(w: BitSeq, h: ObuHeader, body: Result<BitSeq>, trailing: seq<u8>)
    requires WObuWith(w, h, body, trailing).Ok?
    ensures body.Ok? && |body.value| % 8 == 0 && body.value <= WBytes(body.value, trailing)
    ensures trailing == [] ==> WBytes(body.value, trailing) == body.value
  {
    hide WObu;
    NothingAppended(body.value);
  }

  lemma Untrailed(body: Result<BitSeq>)
    ensures WithTrailing(body, []) == body
  {
    if body.Ok? {
      NothingAppended(body.value);
    }
  }

  lemma StepHeaderObu(w: BitSeq, o: Obu<IaSequenceHeader>, d: BitSeq) returns (w1: BitSeq)
    requires HeaderCanonical(o.header) && o.payload.trailing == []
    requires WObuWith(w, o.header, WHeaderPayload(o.payload), o.trailing).Ok?
    requires WObuWith(w, o.header, WHeaderPayload(o.payload), o.trailing).value <= d
    ensures w1 == WObuWith(w, o.header, WHeaderPayload(o.payload), o.trailing).value && |w1| % 8 == 0
    ensures RObu(d, |w|, PHeader) == Ok((o, |w1|))
    ensures RHeaderParts(d, |w|).Ok? && RHeaderParts(d, |w|).value.header == o.header
  {
    hide WObuWith, RObu, RHeaderParts, WBytes, HeaderCanonical, WHeaderBody, RHeaderBody;
    Untrailed(WHeaderBody([], o.payload));
    BodyThenTrailing(w, o.header, WHeaderPayload(o.payload), o.trailing);
    var body := WHeaderPayload(o.payload).value;
    var _ := StepHeaderBody([], o.payload, WBytes(body, o.trailing));
    w1 := ObuReadsBack(w, o.header, body, o.trailing, o.payload, PHeader, d);
  }

  lemma StepCodecObu(w: BitSeq, o: Obu<CodecConfig>, d: BitSeq) returns (w1: BitSeq)
    requires HeaderCanonical(o.header) && o.payload.trailing == [] && Typed(o.payload.codecId, o.payload.decoderConfig)
    requires o.payload.decoderConfig.RawConfig? ==> o.trailing == []
    requires WObuWith(w, o.header, WCodecPayload(o.payload), o.trailing).Ok?
    requires WObuWith(w, o.header, WCodecPayload(o.payload), o.trailing).value <= d
    ensures w1 == WObuWith(w, o.header, WCodecPayload(o.payload), o.trailing).value && |w1| % 8 == 0
    ensures RObu(d, |w|, PCodec) == Ok((o, |w1|))
    ensures RHeaderParts(d, |w|).Ok? && RHeaderParts(d, |w|).value.header == o.header
  {
    hide WObuWith, RObu, RHeaderParts, WBytes, HeaderCanonical, WCodecBody, RCodecBody, Typed;
    Untrailed(WCodecBody([], o.payload));
    BodyThenTrailing(w, o.header, WCodecPayload(o.payload), o.trailing);
    var body := WCodecPayload(o.payload).value;
    var _ := StepCodecBody([], o.payload, WBytes(body, o.trailing));
    w1 := ObuReadsBack(w, o.header, body, o.trailing, o.payload, PCodec, d);
  }

  lemma StepElementObu(w: BitSeq, o: Obu<AudioElement>, d: BitSeq) returns (w1: BitSeq)
    requires HeaderCanonical(o.header) && ElementCanonical(o.payload)
    requires o.payload.elementType.ReservedType? ==> o.trailing == []
    requires WObuWith(w, o.header, WElementPayload(o.payload), o.trailing).Ok?
    requires WObuWith(w, o.header, WElementPayload(o.payload), o.trailing).value <= d
    ensures w1 == WObuWith(w, o.header, WElementPayload(o.payload), o.trailing).value && |w1| % 8 == 0
    ensures RObu(d, |w|, PElement) == Ok((o, |w1|))
    ensures RHeaderParts(d, |w|).Ok? && RHeaderParts(d, |w|).value.header == o.header
  {
    hide WObuWith, RObu, RHeaderParts, WBytes, HeaderCanonical, WElementBody, RElementBody;
    Untrailed(WElementBody([], o.payload));
    BodyThenTrailing(w, o.header, WElementPayload(o.payload), o.trailing);
    var body := WElementPayload(o.payload).value;
    var _ := StepElementBody([], o.payload, WBytes(body, o.trailing));
    w1 := ObuReadsBack(w, o.header, body, o.trailing, o.payload, PElement, d);
  }

  lemma StepMixObu(w: BitSeq, o: Obu<MixPresentation>, d: BitSeq) returns (w1: BitSeq)
    requires HeaderCanonical(o.header) && MixCanonical(o.payload)
    requires WObuWith(w, o.header, WMixPayload(o.payload), o.trailing).Ok?
    requires WObuWith(w, o.header, WMixPayload(o.payload), o.trailing).value <= d
    ensures w1 == WObuWith(w, o.header, WMixPayload(o.payload), o.trailing).value && |w1| % 8 == 0
    ensures RObu(d, |w|, PMix) == Ok((o, |w1|))
    ensures RHeaderParts(d, |w|).Ok? && RHeaderParts(d, |w|).value.header == o.header
  {
    hide WObuWith, RObu, RHeaderParts, WBytes, HeaderCanonical, WMixBody, RMixBody;
    Untrailed(WMixBody([], o.payload));
    BodyThenTrailing(w, o.header, WMixPayload(o.payload), o.trailing);
    var body := WMixPayload(o.payload).value;
    var _ := StepMixBody([], o.payload, WBytes(body, o.trailing));
    w1 := ObuReadsBack(w, o.header, body, o.trailing, o.payload, PMix, d);
  }

  lemma StepDelimiterObu(w: BitSeq, o: Obu<()>, d: BitSeq) returns (w1: BitSeq)
    requires HeaderCanonical(o.header)
    requires WObuWith(w, o.header, Ok([]), o.trailing).Ok?
    requires WObuWith(w, o.header, Ok([]), o.trailing).value <= d
    ensures w1 == WObuWith(w, o.header, Ok([]), o.trailing).value && |w1| % 8 == 0
    ensures RObu(d, |w|, PDelimiter) == Ok((o, |w1|))
    ensures RHeaderParts(d, |w|).Ok? && RHeaderParts(d, |w|).value.header == o.header
  {
    hide WObuWith, RObu, RHeaderParts, WBytes, HeaderCanonical, WObu;
    assert o.payload == ();
    w1 := ObuReadsBack(w, o.header, [], o.trailing, o.payload, PDelimiter, d);
  }

  lemma StepBlockObu(w: BitSeq, o: Obu<ParameterBlock>, registry: Registry, d: BitSeq) returns (w1: BitSeq)
    requires HeaderCanonical(o.header) && BlockClean(o.payload)
    requires WObuWith(w, o.header, WGovernedBlock(registry, o.payload), o.trailing).Ok?
    requires WObuWith(w, o.header, WGovernedBlock(registry, o.payload), o.trailing).value <= d
    ensures w1 == WObuWith(w, o.header, WGovernedBlock(registry, o.payload), o.trailing).value && |w1| % 8 == 0
    ensures RObu(d, |w|, PBlock(registry)) == Ok((o, |w1|))
    ensures RHeaderParts(d, |w|).Ok? && RHeaderParts(d, |w|).value.header == o.header
  {
    hide WObuWith, RObu, RHeaderParts, WBytes, HeaderCanonical, WParameterBlock, RParameterBlock, BlockClean;
    BodyThenTrailing(w, o.header, WGovernedBlock(registry, o.payload), o.trailing);
    var body := WGovernedBlock(registry, o.payload).value;
    var _ := StepParameterBlock([], registry, o.payload, WBytes(body, o.trailing));
    w1 := ObuReadsBack(w, o.header, body, o.trailing, o.payload, PBlock(registry), d);
  }

  lemma StepFrameObu(w: BitSeq, o: Obu<AudioFrame>, d: BitSeq) returns (w1: BitSeq)
    requires HeaderCanonical(o.header) && o.trailing == []
    requires WObuWith(w, o.header, WAudioFrame([], o.header, o.payload), o.trailing).Ok?
    requires WObuWith(w, o.header, WAudioFrame([], o.header, o.payload), o.trailing).value <= d
    ensures w1 == WObuWith(w, o.header, WAudioFrame([], o.header, o.payload), o.trailing).value && |w1| % 8 == 0
    ensures RObu(d, |w|, PFrame) == Ok((o, |w1|))
    ensures RHeaderParts(d, |w|).Ok? && RHeaderParts(d, |w|).value.header == o.header
  {
    hide WObuWith, RObu, RHeaderParts, WBytes, HeaderCanonical, WAudioFrame, RAudioFrame;
    BodyThenTrailing(w, o.header, WAudioFrame([], o.header, o.payload), o.trailing);
    var body := WAudioFrame([], o.header, o.payload).value;
    var _ := StepAudioFrame(o.header, o.payload);
    w1 := ObuReadsBack(w, o.header, body, o.trailing, o.payload, PFrame, d);
  }

  /** An opaque payload takes the whole window. */
  lemma StepRawObu(w: BitSeq, h: ObuHeader, bytes: seq<u8>, d: BitSeq) returns (w1: BitSeq)
    requires HeaderCanonical(h) && WObu(w, h, BytesBits(bytes)).Ok? && WObu(w, h, BytesBits(bytes)).value <= d
    ensures w1 == WObu(w, h, BytesBits(bytes)).value && |w1| % 8 == 0
    ensures RObu(d, |w|, PRest) == Ok((Obu(h, bytes, []), |w1|))
    ensures RHeaderParts(d, |w|).Ok? && RHeaderParts(d, |w|).value.header == h
    ensures RWindow(d, |w|) == Ok((h, BytesBits(bytes), |w1|))
  {
    hide WObu, RWindow, RHeaderParts, BytesBits, HeaderCanonical;
    w1 := StepWindow(w, h, BytesBits(bytes), d);
    ObuAligned(w, h, BytesBits(bytes));
    WindowHeader(d, |w|);
    assert [] + BytesBits(bytes) == BytesBits(bytes);
    var _ := StepRest([], bytes);
  }

  /** The first look at a governed block finds the id the full parse finds. */
  lemma InspectionAgrees(d: BitSeq, p: nat, registry: Registry)
    requires RObu(d, p, PBlock(registry)).Ok?
    ensures var id := RObu(d, p, PBlock(registry)).value.0.payload.parameterId;
            RInspectedId(d, p) == Ok(id) && Get(registry, id).Some?
  {
    hide RWindow, RLeb, RBlockDurations;
    var (h, window, end) := RWindow(d, p).value;
    var q := RLeb(window, 0).value.1;
    assert q % 8 == 0;
  }

  /**
    Write then read, for every kind of OBU: a well-formed OBU that the writer accepts is read back equal,
    from the registry the writer used, and the reader stops at its last bit.
  */
  lemma StepSeqObu(w: BitSeq, registry: Registry, o: SequenceObu, d: BitSeq) returns (w1: BitSeq)
    requires WellFormed(registry, o)
    requires WSeqObu(w, registry, o).Ok? && WSeqObu(w, registry, o).value <= d
    ensures w1 == WSeqObu(w, registry, o).value && |w1| % 8 == 0
    ensures RSeqObu(d, |w|, registry) == Ok((o, |w1|))
  {
    hide WObuWith, WObu, RObu, RHeaderParts, WHeaderPayload, WCodecPayload, WElementPayload, WMixPayload;
    hide WGovernedBlock, WAudioFrame, Typed, RInspectedId, BlockClean, MixCanonical, ElementCanonical, BytesBits;
    hide Nameless, Get, PHeader, PCodec, PElement, PMix, PParameterId, PBlock, PRest, PDelimiter, PFrame;
    match o
    case IaHeader(o) => w1 := StepHeaderObu(w, o, d);
    case Codec(o) => w1 := StepCodecObu(w, o, d);
    case Element(o) => w1 := StepElementObu(w, o, d);
    case Mix(o) => w1 := StepMixObu(w, o, d);
    case Block(o) =>
      w1 := StepBlockObu(w, o, registry, d);
      InspectionAgrees(d, |w|, registry);
    case Ungoverned(h, bytes) =>
      w1 := StepRawObu(w, h, bytes, d);
      OpaqueBlock(d, |w|, registry, h, BytesBits(bytes), bytes, |w1|);
    case Delimiter(o) => w1 := StepDelimiterObu(w, o, d);
    case Frame(o) => w1 := StepFrameObu(w, o, d);
    case Unknown(h, bytes) => w1 := StepRawObu(w, h, bytes, d);
  }

  lemma OpaqueBlock(d: BitSeq, p: nat, registry: Registry, h: ObuHeader, window: BitSeq, bytes: seq<u8>, end: nat)
    requires RWindow(d, p) == Ok((h, window, end)) && RObu(d, p, PRest) == Ok((Obu(h, bytes, []), end))
    ensures Nameless(registry, window) <==> RInspectedId(d, p).Ok? && Get(registry, RInspectedId(d, p).value).None?
    ensures Nameless(registry, window) ==> RBlockObu(d, p, registry) == Ok((Ungoverned(h, bytes), end))
  {
    hide RWindow, RLeb, Get;
    if RLeb(window, 0).Ok? {
      var q := RLeb(window, 0).value.1;
      assert q % 8 == 0;
    }
  }

  // ------------------------------------------------------------ read, then write

  /** What was read at `p..q` is refused as `refusal` says, or is written at `w` canonically as `r`. */
  ghost predicate RefusedOrCanonical(
      d: BitSeq, p: nat, q: nat, w: BitSeq, r: Result<BitSeq>, refusal: Result<()>, minimal: bool)
  {
    if refusal.Err? then r == Err(refusal.error)
    else r.Ok? && Canon(d, p, q, w, r.value) && Tight(q - p, |r.value| - |w|, minimal)
  }

  /** The OBU `o` read at `p..q` is written at `w` canonically, or refused for its header alone. */
  ghost predicate Rewritten<T>(
      d: BitSeq, p: nat, q: nat, w: BitSeq, o: Obu<T>, payload: Result<BitSeq>, minimal: bool)
  {
    && HeaderCanonical(o.header)
    && RefusedOrCanonical(
         d, p, q, w, WObuWith(w, o.header, payload, o.trailing), ValidateHeader(o.header),
         FramingMinimal(d, p) && minimal)
  }

  /** What `RObu` saw, in pieces. */
  lemma ObuShape<T>(d: BitSeq, p: nat, parse: PayloadReader<T>) returns (h: ObuHeader, window: BitSeq, e: nat)
    requires RObu(d, p, parse).Ok?
    ensures RWindow(d, p) == Ok((h, window, RObu(d, p, parse).value.1)) && |window| % 8 == 0
    ensures h == RObu(d, p, parse).value.0.header && RHeaderParts(d, p).Ok? && RHeaderParts(d, p).value.header == h
    ensures parse(h, window) == Ok((RObu(d, p, parse).value.0.payload, e))
    ensures e == |window| ==> RObu(d, p, parse).value.0.trailing == []
  {
    hide RWindow, RHeaderParts;
    WindowHeader(d, p);
    h, window := RWindow(d, p).value.0, RWindow(d, p).value.1;
    e := parse(h, window).value.1;
  }

  lemma AgainHeaderObu(d: BitSeq, p: nat, w: BitSeq, o: Obu<IaSequenceHeader>, q: nat)
    requires RObu(d, p, PHeader) == Ok((o, q)) && |w| % 8 == 0
    ensures o.payload.trailing == []
    ensures RefusedOrCanonical(
              d, p, q, w, WObuWith(w, o.header, WHeaderPayload(o.payload), o.trailing), Refusal(IaHeader(o)),
              FramingMinimal(d, p))
    ensures HeaderCanonical(o.header)
  {
    hide WObuWith, RObu, WBytes, RWindow, RHeaderParts, Canon, HeaderCanonical, ValidateHeader, FramingMinimal,
         WHeaderBody, RHeaderBody;
    var h, window, e := ObuShape(d, p, PHeader);
    CanonStart(window, 0, []);
    var body := AgainHeaderBody(window, 0, 0, [], []);
    Untrailed(WHeaderBody([], o.payload));
    WindowAgain(d, p, w, []);
    if o.payload.additionalProfile >= o.payload.primaryProfile {
      var _ := StepHeaderBody([], o.payload, body);
      ObuAgain(d, p, w, o, q, body, e, PHeader, true);
    } else {
      RefusedPayload(w, o.header, AdditionalProfileBelowPrimary, o.trailing);
    }
  }

  lemma RefusedPayload(w: BitSeq, h: ObuHeader, e: Error, trailing: seq<u8>)
    ensures WObuWith(w, h, Err(e), trailing) == Err(e)
  {
  }

  lemma AgainCodecObu(d: BitSeq, p: nat, w: BitSeq, o: Obu<CodecConfig>, q: nat)
    requires RObu(d, p, PCodec) == Ok((o, q)) && |w| % 8 == 0
    ensures o.payload.trailing == [] && Typed(o.payload.codecId, o.payload.decoderConfig)
    ensures o.payload.decoderConfig.RawConfig? ==> o.trailing == []
    ensures Rewritten(d, p, q, w, o, WCodecPayload(o.payload), CodecMinimal(RWindow(d, p).value.1, 0))
  {
    hide WObuWith, RObu, WBytes, RWindow, RHeaderParts, Canon, HeaderCanonical, ValidateHeader, FramingMinimal,
         WCodecBody, RCodecBody, Typed;
    hide CodecMinimal;
    var h, window, e := ObuShape(d, p, PCodec);
    CanonStart(window, 0, []);
    var body := AgainCodecBody(window, 0, 0, [], []);
    Untrailed(WCodecBody([], o.payload));
    var _ := StepCodecBody([], o.payload, body);
    ObuAgain(d, p, w, o, q, body, e, PCodec, CodecMinimal(window, 0));
  }

  lemma AgainElementObu(d: BitSeq, p: nat, w: BitSeq, o: Obu<AudioElement>, q: nat)
    requires RObu(d, p, PElement) == Ok((o, q)) && |w| % 8 == 0
    ensures ElementCanonical(o.payload) && (o.payload.elementType.ReservedType? ==> o.trailing == [])
    ensures Rewritten(d, p, q, w, o, WElementPayload(o.payload), ElementMinimal(RWindow(d, p).value.1, 0))
  {
    hide WObuWith, RObu, WBytes, RWindow, RHeaderParts, Canon, HeaderCanonical, ValidateHeader, FramingMinimal,
         WElementBody, RElementBody;
    hide ElementMinimal;
    var h, window, e := ObuShape(d, p, PElement);
    CanonStart(window, 0, []);
    var body := AgainElementBody(window, 0, 0, [], []);
    Untrailed(WElementBody([], o.payload));
    var _ := StepElementBody([], o.payload, body);
    ObuAgain(d, p, w, o, q, body, e, PElement, ElementMinimal(window, 0));
  }

  lemma AgainMixObu(d: BitSeq, p: nat, w: BitSeq, o: Obu<MixPresentation>, q: nat)
    requires RObu(d, p, PMix) == Ok((o, q)) && |w| % 8 == 0
    ensures MixCanonical(o.payload)
    ensures Rewritten(d, p, q, w, o, WMixPayload(o.payload), MixMinimal(RWindow(d, p).value.1, 0))
  {
    hide WObuWith, RObu, WBytes, RWindow, RHeaderParts, Canon, HeaderCanonical, ValidateHeader, FramingMinimal,
         WMixBody, RMixBody;
    hide MixMinimal;
    var h, window, e := ObuShape(d, p, PMix);
    CanonStart(window, 0, []);
    var body := AgainMixBody(window, 0, 0, [], []);
    Untrailed(WMixBody([], o.payload));
    var _ := StepMixBody([], o.payload, body);
    ObuAgain(d, p, w, o, q, body, e, PMix, MixMinimal(window, 0));
  }

  lemma AgainBlockObu(d: BitSeq, p: nat, w: BitSeq, o: Obu<ParameterBlock>, q: nat, registry: Registry)
    requires RObu(d, p, PBlock(registry)) == Ok((o, q)) && |w| % 8 == 0
    ensures BlockClean(o.payload)
    ensures Rewritten(d, p, q, w, o, WGovernedBlock(registry, o.payload),
                      BlockMinimal(RWindow(d, p).value.1, 0, registry))
  {
    hide WObuWith, RObu, WBytes, RWindow, RHeaderParts, Canon, HeaderCanonical, ValidateHeader, FramingMinimal,
         WParameterBlock, RParameterBlock, BlockClean, ValidateParameterBlock;
    hide BlockMinimal;
    var h, window, e := ObuShape(d, p, PBlock(registry));
    CanonStart(window, 0, []);
    var body := AgainParameterBlock(window, 0, 0, registry, [], []);
    var _ := StepParameterBlock([], registry, o.payload, body);
    ObuAgain(d, p, w, o, q, body, e, PBlock(registry), BlockMinimal(window, 0, registry));
  }

  lemma AgainDelimiterObu(d: BitSeq, p: nat, w: BitSeq, o: Obu<()>, q: nat)
    requires RObu(d, p, PDelimiter) == Ok((o, q)) && |w| % 8 == 0
    ensures Rewritten(d, p, q, w, o, Ok([]), true)
  {
    hide WObuWith, RObu, WBytes, RWindow, RHeaderParts, Canon, HeaderCanonical, ValidateHeader, FramingMinimal, WObu;
    var h, window, e := ObuShape(d, p, PDelimiter);
    CanonStart(window, 0, []);
    assert o.payload == ();
    ObuAgain(d, p, w, o, q, [], 0, PDelimiter, true);
  }

  lemma AgainFrameObu(d: BitSeq, p: nat, w: BitSeq, o: Obu<AudioFrame>, q: nat)
    requires RObu(d, p, PFrame) == Ok((o, q)) && |w| % 8 == 0
    ensures o.trailing == []
    ensures Rewritten(
              d, p, q, w, o, WAudioFrame([], o.header, o.payload), FrameMinimal(RWindow(d, p).value.1, o.header))
  {
    hide WObuWith, RObu, WBytes, RWindow, RHeaderParts, Canon, HeaderCanonical, ValidateHeader, FramingMinimal,
         WAudioFrame, RAudioFrame;
    hide FrameMinimal;
    var h, window, e := ObuShape(d, p, PFrame);
    CanonStart(window, 0, []);
    var body := AgainAudioFrame(window, h);
    var _ := StepAudioFrame(h, o.payload);
    ObuAgain(d, p, w, o, q, body, e, PFrame, FrameMinimal(window, h));
  }

  /** An opaque payload is the whole window, so it is written again unchanged. */
  lemma AgainRawObu(d: BitSeq, p: nat, w: BitSeq, o: Obu<seq<u8>>, q: nat)
    requires RObu(d, p, PRest) == Ok((o, q)) && |w| % 8 == 0
    ensures RWindow(d, p) == Ok((o.header, BytesBits(o.payload), q)) && HeaderCanonical(o.header) && o.trailing == []
    ensures RHeaderParts(d, p).Ok? && RHeaderParts(d, p).value.header == o.header
    ensures RefusedOrCanonical(
              d, p, q, w, WObu(w, o.header, BytesBits(o.payload)), ValidateHeader(o.header), FramingMinimal(d, p))
  {
    hide WObu, RObu, RWindow, RHeaderParts, Canon, HeaderCanonical, ValidateHeader, FramingMinimal;
    var h, window, e := ObuShape(d, p, PRest);
    BitsOfBytesAt(window, 0, Remaining(window, 0));
    assert window[0..|window|] == window;
    WindowAgain(d, p, w, window);
  }

  /** The two ways a parsed OBU can be refused by the writer, in the order they are tested. */
  function Refusal(o: SequenceObu): Result<()> {
    if o.IaHeader? && o.ia.payload.additionalProfile < o.ia.payload.primaryProfile
    then Err(AdditionalProfileBelowPrimary)
    else ValidateHeader(o.Header())
  }

  /** The fields that `o` was decoded from in its payload window. */
  predicate PayloadMinimal(o: SequenceObu, window: BitSeq, registry: Registry) {
    match o
    case Codec(_) => CodecMinimal(window, 0)
    case Element(_) => ElementMinimal(window, 0)
    case Mix(_) => MixMinimal(window, 0)
    case Block(_) => BlockMinimal(window, 0, registry)
    case Frame(o) => FrameMinimal(window, o.header)
    case _ => true
  }

  /**
    Every uleb128 that the OBU at `p` is decoded from takes no more bytes than its value needs: `obu_size`,
    the after-size fields, and those of its payload. An opaque payload is kept as bytes, so nothing in it
    is decoded.
  */
  predicate ObuMinimal(d: BitSeq, p: nat, registry: Registry) {
    hide RWindow, RSeqObu, FramingMinimal, PayloadMinimal;
    && FramingMinimal(d, p)
    && (RWindow(d, p).Ok? && RSeqObu(d, p, registry).Ok? ==>
          PayloadMinimal(RSeqObu(d, p, registry).value.0, RWindow(d, p).value.1, registry))
  }

  /**
    Read then write, for every kind of OBU: what was read is well-formed for the registry it was read
    under; it is written again canonically, unless one of the two refusals applies, and in as many bits
    exactly when every uleb128 it was decoded from was minimal.
  */
  lemma AgainSeqObu(d: BitSeq, p: nat, registry: Registry, w: BitSeq)
    requires RSeqObu(d, p, registry).Ok? && |w| % 8 == 0
    ensures var (o, q) := RSeqObu(d, p, registry).value;
            && WellFormed(registry, o)
            && RefusedOrCanonical(
                 d, p, q, w, WSeqObu(w, registry, o), Refusal(o), ObuMinimal(d, p, registry))
  {
    hide RefusedOrCanonical, RWindow, FramingMinimal, CodecMinimal, ElementMinimal, MixMinimal, BlockMinimal,
         FrameMinimal;
    hide ObuMinimal;
    hide WObuWith, WObu, RObu, RHeaderParts, WHeaderPayload, WCodecPayload, WElementPayload, WMixPayload, Canon;
    hide WGovernedBlock, WAudioFrame, Typed, BlockClean, MixCanonical, ElementCanonical, BytesBits, ValidateHeader;
    hide Nameless, Get, PHeader, PCodec, PElement, PMix, PParameterId, PBlock, PRest, PDelimiter, PFrame, RInspectedId;
    MinimalParts(d, p, registry);
    var (o, q) := RSeqObu(d, p, registry).value;
    match o
    case IaHeader(o) =>
      AgainHeaderObu(d, p, w, o, q);
      ObuHeaderSeen(d, p, PHeader);
    case Codec(o) => AgainCodecObu(d, p, w, o, q); ObuHeaderSeen(d, p, PCodec);
    case Element(o) => AgainElementObu(d, p, w, o, q); ObuHeaderSeen(d, p, PElement);
    case Mix(o) => AgainMixObu(d, p, w, o, q); ObuHeaderSeen(d, p, PMix);
    case Block(o) => AgainBlockObu(d, p, w, o, q, registry); ObuHeaderSeen(d, p, PBlock(registry));
    case Ungoverned(h, bytes) =>
      AgainRawObu(d, p, w, RObu(d, p, PRest).value.0, q);
      OpaqueBlock(d, p, registry, h, BytesBits(bytes), bytes, q);
    case Delimiter(o) => AgainDelimiterObu(d, p, w, o, q); ObuHeaderSeen(d, p, PDelimiter);
    case Frame(o) => AgainFrameObu(d, p, w, o, q); ObuHeaderSeen(d, p, PFrame);
    case Unknown(_, _) => AgainRawObu(d, p, w, RObu(d, p, PRest).value.0, q);
  }

  lemma ObuHeaderSeen<T>(d: BitSeq, p: nat, parse: PayloadReader<T>)
    requires RObu(d, p, parse).Ok?
    ensures RHeaderParts(d, p).Ok? && RHeaderParts(d, p).value.header == RObu(d, p, parse).value.0.header
  {
    hide RObu, RHeaderParts;
    var _, _, _ := ObuShape(d, p, parse);
  }

  lemma ObuLocal<T>(d: BitSeq, d1: BitSeq, p: nat, parse: PayloadReader<T>)
    requires RWindow(d1, p) == RWindow(d, p)
    ensures RObu(d1, p, parse) == RObu(d, p, parse)
  {
    hide RWindow;
  }

  lemma WindowSeen(d: BitSeq, p: nat, registry: Registry)
    requires RSeqObu(d, p, registry).Ok?
    ensures RWindow(d, p).Ok? && RWindow(d, p).value.2 == RSeqObu(d, p, registry).value.1
    ensures RHeaderParts(d, p).value.header == RWindow(d, p).value.0
  {
    hide RHeaderParts, RWindow;
    hide PHeader, PCodec, PElement, PMix, PParameterId, PBlock, PRest, PDelimiter, PFrame, Get;
    WindowHeader(d, p);
  }

  lemma MinimalParts(d: BitSeq, p: nat, registry: Registry)
    requires RSeqObu(d, p, registry).Ok?
    ensures RWindow(d, p).Ok?
    ensures ObuMinimal(d, p, registry)
       <==> FramingMinimal(d, p) && PayloadMinimal(RSeqObu(d, p, registry).value.0, RWindow(d, p).value.1, registry)
  {
    hide RSeqObu, RWindow, FramingMinimal, PayloadMinimal;
    WindowSeen(d, p, registry);
  }

  /** Reading one OBU depends on nothing but the bits it occupies and the registry. */
  lemma SeqObuLocal(d: BitSeq, d1: BitSeq, p: nat, registry: Registry)
    requires RSeqObu(d, p, registry).Ok?
    requires var q := RSeqObu(d, p, registry).value.1; q <= |d1| && d1[p..q] == d[p..q]
    ensures RSeqObu(d1, p, registry) == RSeqObu(d, p, registry)
  {
    hide RHeaderParts, RWindow, RObu;
    hide PHeader, PCodec, PElement, PMix, PParameterId, PBlock, PRest, PDelimiter, PFrame, Get;
    WindowSeen(d, p, registry);
    WindowLocal(d, d1, p);
    WindowHeader(d1, p);
    ObuLocal(d, d1, p, PHeader);
    ObuLocal(d, d1, p, PCodec);
    ObuLocal(d, d1, p, PElement);
    ObuLocal(d, d1, p, PMix);
    ObuLocal(d, d1, p, PParameterId);
    ObuLocal(d, d1, p, PBlock(registry));
    ObuLocal(d, d1, p, PRest);
    ObuLocal(d, d1, p, PDelimiter);
    ObuLocal(d, d1, p, PFrame);
  }

  /** A written OBU starts and ends on a byte boundary. */
  lemma SeqObuAligned(w: BitSeq, registry: Registry, o: SequenceObu)
    requires WSeqObu(w, registry, o).Ok?
    ensures |w| % 8 == 0 && |WSeqObu(w, registry, o).value| % 8 == 0
  {
    hide WHeaderPayload, WCodecPayload, WElementPayload, WMixPayload, WGovernedBlock, WAudioFrame, WObu, BytesBits,
         WBytes;
    match o
    case IaHeader(o) => FramedAligned(w, o.header, WHeaderPayload(o.payload), o.trailing);
    case Codec(o) => FramedAligned(w, o.header, WCodecPayload(o.payload), o.trailing);
    case Element(o) => FramedAligned(w, o.header, WElementPayload(o.payload), o.trailing);
    case Mix(o) => FramedAligned(w, o.header, WMixPayload(o.payload), o.trailing);
    case Block(o) => FramedAligned(w, o.header, WGovernedBlock(registry, o.payload), o.trailing);
    case Ungoverned(h, bytes) => ObuAligned(w, h, BytesBits(bytes));
    case Delimiter(o) => FramedAligned(w, o.header, Ok([]), o.trailing);
    case Frame(o) => FramedAligned(w, o.header, WAudioFrame([], o.header, o.payload), o.trailing);
    case Unknown(h, bytes) => ObuAligned(w, h, BytesBits(bytes));
  }

  lemma FramedAligned(w: BitSeq, h: ObuHeader, payload: Result<BitSeq>, trailing: seq<u8>)
    requires WObuWith(w, h, payload, trailing).Ok?
    ensures |w| % 8 == 0 && |WObuWith(w, h, payload, trailing).value| % 8 == 0
  {
    hide WObu;
    ObuAligned(w, h, WBytes(payload.value, trailing));
  }

  lemma SeqObuEndAligned(d: BitSeq, p: nat, registry: Registry)
    requires RSeqObu(d, p, registry).Ok?
    ensures RSeqObu(d, p, registry).value.1 % 8 == 0
  {
    hide *;
    WindowSeen(d, p, registry);
    var _, _, _, q, obuSize, _ := WindowShape(d, p);
    WholeBytes(q, obuSize);
  }
}
