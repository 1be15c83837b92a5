/**
  OBU framing: the common header, the two-pass `obu_size`, the window every
  payload is read through, and the one place that drains `trailing`.
*/
module Obus {
  import opened Core
  import opened Bits
  import opened Leb128

  const ENTIRE_OBU_SIZE_MAX := 0x20_0000
  const MAX_IMPLICIT_SUBSTREAM_ID := 17

  type FrameIndex = x: nat | x <= MAX_IMPLICIT_SUBSTREAM_ID

  /** The five-bit OBU type; `AudioFrameIdObu(n)` stands for the eighteen implicit-id frame types. */
  datatype ObuType =
    | CodecConfigObu
    | AudioElementObu
    | MixPresentationObu
    | ParameterBlockObu
    | TemporalDelimiterObu
    | AudioFrameObu
    | AudioFrameIdObu(id: FrameIndex)
    | IaSequenceHeaderObu
    | ReservedObu(raw: u8)
  {
    function Value(): u8 {
      match this
      case CodecConfigObu => 0
      case AudioElementObu => 1
      case MixPresentationObu => 2
      case ParameterBlockObu => 3
      case TemporalDelimiterObu => 4
      case AudioFrameObu => 5
      case AudioFrameIdObu(id) => 6 + id
      case IaSequenceHeaderObu => 31
      case ReservedObu(raw) => raw
    }

    static function FromValue(value: u8): ObuType {
      if value == 0 then CodecConfigObu
      else if value == 1 then AudioElementObu
      else if value == 2 then MixPresentationObu
      else if value == 3 then ParameterBlockObu
      else if value == 4 then TemporalDelimiterObu
      else if value == 5 then AudioFrameObu
      else if value <= 23 then AudioFrameIdObu(value - 6)
      else if value == 31 then IaSequenceHeaderObu
      else ReservedObu(value)
    }

    predicate IsAudioFrame() {
      5 <= Value() <= 23
    }

    predicate IsRedundantCopyAllowed() {
      !(3 <= Value() <= 23)
    }
  }

  datatype Trimming = Trimming(atEnd: u32, atStart: u32)

  datatype TypeSpecific = TrimmingField(trim: Option<Trimming>) | NoTypeSpecific

  datatype ObuHeader = ObuHeader(
    obuType: ObuType,
    redundantCopy: bool,
    typeSpecific: TypeSpecific,
    extension: Option<seq<u8>>)
  {
    static function New(obuType: ObuType): ObuHeader {
      ObuHeader(obuType, false, NoTypeSpecific, None)
    }

    predicate TrimmingFlag() {
      typeSpecific.TrimmingField? && typeSpecific.trim.Some?
    }

    predicate ExtensionFlag() {
      extension.Some?
    }
  }

  datatype Obu<+T> = Obu(header: ObuHeader, payload: T, trailing: seq<u8>)

  // ------------------------------------------------------------- the writer

  function ValidateHeader(h: ObuHeader): Result<()> {
    if h.obuType.ReservedObu? && (h.obuType.raw <= 23 || h.obuType.raw == 31) then Err(ReservedAliasesDefinedValue)
    else if h.TrimmingFlag() && !h.obuType.IsAudioFrame() then Err(TrimmingFlagNotAllowed)
    else if h.redundantCopy && !h.obuType.IsRedundantCopyAllowed() then Err(RedundantCopyNotAllowed)
    else Ok(())
  }

  /** End trim, then start trim. */
  function WTrims(w: BitSeq, t: Trimming): (r: BitSeq)
    ensures w <= r && (|r| - |w|) % 8 == 0
  {
    hide WLeb, MinimalLen;
    WholeBytes(|w|, MinimalLen(t.atEnd) + MinimalLen(t.atStart));
    WLeb(WLeb(w, t.atEnd), t.atStart)
  }

  function WExtension(w: BitSeq, bytes: seq<u8>): (r: Result<BitSeq>)
    ensures r.Ok? ==> w <= r.value && (|r.value| - |w|) % 8 == 0
  {
    hide WLeb, WBytes, MinimalLen;
    if |bytes| >= U32_LIMIT then Err(ObuTooLarge)
    else
      WholeBytes(|w|, MinimalLen(|bytes|) + |bytes|);
      Ok(WBytes(WLeb(w, |bytes|), bytes))
  }

  /** The fields between `obu_size` and the payload: end trim, start trim, extension. */
  function WAfterSize(w: BitSeq, h: ObuHeader): (r: Result<BitSeq>)
    ensures r.Ok? ==> w <= r.value && (|r.value| - |w|) % 8 == 0
  {
    hide WTrims, WExtension;
    var w := if h.TrimmingFlag() then WTrims(w, h.typeSpecific.trim.value) else w;
    if h.extension.Some? then WExtension(w, h.extension.value) else Ok(w)
  }

  function ValidateObuSize(obuSize: u32, sizeOfObuSize: nat): Result<()> {
    if sizeOfObuSize > ENTIRE_OBU_SIZE_MAX - 1 || obuSize > ENTIRE_OBU_SIZE_MAX - 1 - sizeOfObuSize
    then Err(ObuTooLarge) else Ok(())
  }

  function ObuSizeFor(afterLen: nat, payloadLen: nat): (r: Result<u32>)
    ensures r.Ok? ==> r.value == afterLen + payloadLen
  {
    if afterLen + payloadLen >= U32_LIMIT then Err(ObuTooLarge)
    else
      var obuSize: u32 := afterLen + payloadLen;
      var _ :- ValidateObuSize(obuSize, MinimalLen(obuSize));
      Ok(obuSize)
  }

  /** Byte 0: the type and the three flags. */
  function WFlags(w: BitSeq, h: ObuHeader): (r: Result<BitSeq>)
    ensures r.Ok? ==> w <= r.value && |r.value| == |w| + 8
  {
    var w :- WU(w, h.obuType.Value(), 5);
    Ok(WBool(WBool(WBool(w, h.redundantCopy), h.TrimmingFlag()), h.ExtensionFlag()))
  }

  /** Byte 0 and the measured size. */
  function WSizedFlags(w: BitSeq, h: ObuHeader, obuSize: u32): (r: Result<BitSeq>)
    ensures r.Ok? ==> w <= r.value && |r.value| == |w| + 8 + 8 * MinimalLen(obuSize)
  {
    var w :- WFlags(w, h);
    Ok(WLeb(w, obuSize))
  }

  /** `write_obu`; the payload is given as the bits of its bytes. */
  function WObu(w: BitSeq, h: ObuHeader, payload: BitSeq): (r: Result<BitSeq>)
    requires |payload| % 8 == 0
    ensures r.Ok? ==> w <= r.value && |w| + 16 <= |r.value|
  {
    hide WSizedFlags, WAfterSize, ObuSizeFor, ValidateHeader;
    if |w| % 8 != 0 then Err(NotByteAligned)
    else
      var _ :- ValidateHeader(h);
      var after :- WAfterSize([], h);
      var obuSize :- ObuSizeFor(|after| / 8, |payload| / 8);
      var w :- WSizedFlags(w, h, obuSize);
      Ok(w + after + payload)
  }

  /** `finish` on a payload writer. */
  function Finish(payload: BitSeq): (r: Result<BitSeq>)
    ensures r.Ok? ==> r.value == payload && |payload| % 8 == 0
  {
    if |payload| % 8 != 0 then Err(NotByteAligned) else Ok(payload)
  }

  /** `write_obu_with_header`: the payload is what the payload writer produced, `trailing` comes last. */
  function WObuWith(w: BitSeq, h: ObuHeader, payload: Result<BitSeq>, trailing: seq<u8>): (r: Result<BitSeq>)
    ensures r.Ok? ==> w <= r.value && |w| + 16 <= |r.value|
  {
    var payload :- payload;
    var payload :- Finish(payload);
    WObu(w, h, WBytes(payload, trailing))
  }

  // ------------------------------------------------------------- the reader

  function RAfterSize(d: BitSeq, p: nat, obuType: ObuType, trimmingFlag: bool, extensionFlag: bool)
      : (r: Result<(TypeSpecific, Option<seq<u8>>, nat)>)
    requires p <= |d|
    ensures r.Ok? ==> p <= r.value.2 <= |d|
  {
    hide RLeb, RSpan;
    var (typeSpecific, p) :-
      if trimmingFlag then
        var (atEnd, p) :- RLeb(d, p);
        var (atStart, p) :- RLeb(d, p);
        Ok((TrimmingField(Some(Trimming(atEnd, atStart))), p))
      else Ok((if obuType.IsAudioFrame() then TrimmingField(None) else NoTypeSpecific, p));
    if extensionFlag then
      var (len, p) :- RLeb(d, p);
      var (bytes, p) :- RSpan(d, p, len);
      Ok((typeSpecific, Some(bytes), p))
    else Ok((typeSpecific, None, p))
  }

  datatype HeaderParts = HeaderParts(header: ObuHeader, obuSize: u32, afterSize: nat, pos: nat)

  function RFlags(d: BitSeq, p: nat): (r: Result<(ObuType, bool, bool, bool, nat)>)
    ensures r.Ok? ==> r.value.4 == p + 8 <= |d|
  {
    var (typeValue, p) :- RU8(d, p, 5);
    var (redundantCopy, p) :- RBool(d, p);
    var (trimmingFlag, p) :- RBool(d, p);
    var (extensionFlag, p) :- RBool(d, p);
    Ok((ObuType.FromValue(typeValue), redundantCopy, trimmingFlag, extensionFlag, p))
  }

  /** Byte 0 and `obu_size`, checked against the ceiling its own length implies. */
  function RSizedFlags(d: BitSeq, p: nat): (r: Result<(ObuType, bool, bool, bool, u32, nat)>)
    ensures r.Ok? ==> p + 16 <= r.value.5 <= |d|
  {
    hide RFlags, RLeb, ValidateObuSize;
    var (obuType, redundantCopy, trimmingFlag, extensionFlag, sizeStart) :- RFlags(d, p);
    var (obuSize, p) :- RLeb(d, sizeStart);
    var _ :- ValidateObuSize(obuSize, (p - sizeStart) / 8);
    Ok((obuType, redundantCopy, trimmingFlag, extensionFlag, obuSize, p))
  }

  /** The after-size fields, read through a window cut to `obu_size` or to what is left. */
  function RWindowed(
      d: BitSeq, p: nat, obuType: ObuType, redundantCopy: bool, trimmingFlag: bool, extensionFlag: bool, obuSize: u32)
      : (r: Result<HeaderParts>)
    ensures r.Ok? ==> p <= r.value.pos <= |d| && r.value.pos % 8 == 0 && r.value.afterSize <= r.value.obuSize
  {
    hide RAfterSize;
    var available := Remaining(d, p);
    var len := if obuSize <= available then obuSize else available;
    if p % 8 != 0 then Err(NotByteAligned)
    else if p > |d| then Err(UnexpectedEndOfInput)
    else
      match RAfterSize(d[p..p + 8 * len], 0, obuType, trimmingFlag, extensionFlag)
      case Err(e) =>
        Err(if obuSize <= available && e == UnexpectedEndOfInput then TruncatedObu else e)
      case Ok((typeSpecific, extension, q)) =>
        WholeBytes(p, q / 8);
        Ok(HeaderParts(ObuHeader(obuType, redundantCopy, typeSpecific, extension), obuSize, q / 8, p + 8 * (q / 8)))
  }

  /** `read_obu_header_parts`. */
  function RHeaderParts(d: BitSeq, p: nat): (r: Result<HeaderParts>)
    ensures r.Ok? ==> p + 16 <= r.value.pos <= |d| && r.value.pos % 8 == 0
    ensures r.Ok? ==> r.value.afterSize <= r.value.obuSize
  {
    hide RSizedFlags, RWindowed;
    var (obuType, redundantCopy, trimmingFlag, extensionFlag, obuSize, p) :- RSizedFlags(d, p);
    RWindowed(d, p, obuType, redundantCopy, trimmingFlag, extensionFlag, obuSize)
  }

  /** The payload window of the OBU at `p`, and the position after the OBU. */
  function RWindow(d: BitSeq, p: nat): (r: Result<(ObuHeader, BitSeq, nat)>)
    ensures r.Ok? ==> p + 16 <= r.value.2 <= |d| && |r.value.1| % 8 == 0
  {
    hide RHeaderParts;
    var parts :- RHeaderParts(d, p);
    var len := parts.obuSize - parts.afterSize;
    var end := parts.pos + 8 * len;
    if end > |d| then Err(UnexpectedEndOfInput)
    else Ok((parts.header, d[parts.pos..end], end))
  }

  type PayloadReader<T> = (ObuHeader, BitSeq) -> Result<(T, nat)>

  /** `read_obu_with_header`: header, bounded payload, then the one drain. */
  function RObu<T>(d: BitSeq, p: nat, parse: PayloadReader<T>): (r: Result<(Obu<T>, nat)>)
    ensures r.Ok? ==> p + 16 <= r.value.1 <= |d|
  {
    var (header, window, end) :- RWindow(d, p);
    var (payload, q) :- parse(header, window);
    var (trailing, _) :- RRest(window, q);
    Ok((Obu(header, payload, trailing), end))
  }

  /** The trims and the size of the extension, at the start of the after-size window. */
  predicate AfterSizeMinimal(d: BitSeq, trimmingFlag: bool, extensionFlag: bool) {
    hide RLeb;
    var atStart := End(RLeb(d, 0));
    && (trimmingFlag ==> LebMinimal(d, 0) && LebMinimal(d, atStart))
    && (extensionFlag ==> LebMinimal(d, if trimmingFlag then End(RLeb(d, atStart)) else 0))
  }

  /** `obu_size` itself, and the fields between it and the payload. */
  predicate FramingMinimal(d: BitSeq, p: nat) {
    hide RSizedFlags;
    && LebMinimal(d, p + 8)
    && (RSizedFlags(d, p).Ok? ==>
          var (_, _, trimmingFlag, extensionFlag, obuSize, q) := RSizedFlags(d, p).value;
          q + 8 * obuSize <= |d| ==> AfterSizeMinimal(d[q..q + 8 * obuSize], trimmingFlag, extensionFlag))
  }

  // ------------------------------------------------------------- properties

  lemma TypeValueRoundTrip(t: ObuType, v: u8)
    ensures v < 32 ==> ObuType.FromValue(v).Value() == v
    ensures !t.ReservedObu? || 24 <= t.raw <= 30 ==> ObuType.FromValue(t.Value()) == t
  {
  }

  /** A header the reader can produce: the type-specific field is the one its type and flag imply. */
  predicate HeaderCanonical(h: ObuHeader) {
    && (!h.TrimmingFlag() ==>
          h.typeSpecific == if h.obuType.IsAudioFrame() then TrimmingField(None) else NoTypeSpecific)
    && (h.obuType.ReservedObu? ==> 24 <= h.obuType.raw <= 30)
  }

  lemma StepFlags(w: BitSeq, h: ObuHeader, d: BitSeq) returns (w1: BitSeq)
    requires WFlags(w, h).Ok? && WFlags(w, h).value <= d && HeaderCanonical(h)
    ensures w1 == WFlags(w, h).value
    ensures RFlags(d, |w|) == Ok((h.obuType, h.redundantCopy, h.TrimmingFlag(), h.ExtensionFlag(), |w1|))
  {
    hide WU, RU, WBool, RBool;
    PowersOfTwo();
    var a := StepU(w, h.obuType.Value(), 5, d);
    var b := StepBool(a, h.redundantCopy, d);
    var c := StepBool(b, h.TrimmingFlag(), d);
    w1 := StepBool(c, h.ExtensionFlag(), d);
    TypeValueRoundTrip(h.obuType, 0);
  }

  lemma StepAfterSize(w: BitSeq, h: ObuHeader, d: BitSeq) returns (w1: BitSeq)
    requires WAfterSize(w, h).Ok? && WAfterSize(w, h).value <= d && HeaderCanonical(h) && |w| % 8 == 0
    ensures w1 == WAfterSize(w, h).value
    ensures RAfterSize(d, |w|, h.obuType, h.TrimmingFlag(), h.ExtensionFlag()) ==
            Ok((h.typeSpecific, h.extension, |w1|))
  {
    hide WLeb, RLeb, RSpan, WBytes;
    w1 := w;
    if h.TrimmingFlag() {
      w1 := StepLeb(w1, h.typeSpecific.trim.value.atEnd, d);
      w1 := StepLeb(w1, h.typeSpecific.trim.value.atStart, d);
    }
    if h.ExtensionFlag() {
      w1 := StepLeb(w1, |h.extension.value|, d);
      w1 := StepBytes(w1, h.extension.value, d);
    }
  }

  lemma StepSizedFlags(w: BitSeq, h: ObuHeader, obuSize: u32, d: BitSeq) returns (w1: BitSeq)
    requires WSizedFlags(w, h, obuSize).Ok? && WSizedFlags(w, h, obuSize).value <= d && HeaderCanonical(h)
    requires ValidateObuSize(obuSize, MinimalLen(obuSize)).Ok?
    ensures w1 == WSizedFlags(w, h, obuSize).value
    ensures RSizedFlags(d, |w|)
         == Ok((h.obuType, h.redundantCopy, h.TrimmingFlag(), h.ExtensionFlag(), obuSize, |w1|))
  {
    hide WLeb, RLeb, WFlags, RFlags, MinimalLen, ValidateObuSize, HeaderCanonical;
    w1 := StepFlags(w, h, d);
    var sizeStart := |w1|;
    w1 := StepLeb(w1, obuSize, d);
    assert (|w1| - sizeStart) / 8 == MinimalLen(obuSize);
  }

  /** A window that starts with the after-size fields of `h` gives `h` back and points at what follows them. */
  lemma PartsReadBack(d: BitSeq, p: nat, h: ObuHeader, obuSize: u32, q: nat, after: BitSeq)
    requires RSizedFlags(d, p) == Ok((h.obuType, h.redundantCopy, h.TrimmingFlag(), h.ExtensionFlag(), obuSize, q))
    requires HeaderCanonical(h) && WAfterSize([], h) == Ok(after)
    requires q % 8 == 0 && q + 8 * obuSize <= |d| && after <= d[q..q + 8 * obuSize]
    ensures |after| % 8 == 0
    ensures RHeaderParts(d, p) == Ok(HeaderParts(h, obuSize, |after| / 8, q + |after|))
  {
    hide WAfterSize, RAfterSize, RSizedFlags, HeaderCanonical;
    var _ := StepAfterSize([], h, d[q..q + 8 * obuSize]);
  }

  lemma TailWindow(w: BitSeq, after: BitSeq, payload: BitSeq, d: BitSeq)
    requires w + after + payload <= d
    ensures var end := |w| + |after| + |payload|;
            && d[|w|..end] == after + payload
            && after <= d[|w|..end]
            && d[|w| + |after|..end] == payload
  {
    var w1 := w + after + payload;
    PrefixSlice(w1, d, |w|, |w1|);
    PrefixSlice(w1, d, |w| + |after|, |w1|);
    assert w1[|w|..] == after + payload;
  }

  /** Framing round trip: the window of a written OBU is exactly its payload, and reading stops at its end. */
  lemma StepWindow(w: BitSeq, h: ObuHeader, payload: BitSeq, d: BitSeq) returns (w1: BitSeq)
    requires |payload| % 8 == 0 && WObu(w, h, payload).Ok? && WObu(w, h, payload).value <= d && HeaderCanonical(h)
    ensures w1 == WObu(w, h, payload).value
    ensures RWindow(d, |w|) == Ok((h, payload, |w1|))
  {
    hide WSizedFlags, RSizedFlags, WAfterSize, MinimalLen, HeaderCanonical, RHeaderParts, ValidateObuSize;
    w1 := WObu(w, h, payload).value;
    var after := WAfterSize([], h).value;
    var obuSize := ObuSizeFor(|after| / 8, |payload| / 8).value;
    var sized := WSizedFlags(w, h, obuSize).value;
    assert w1 == sized + after + payload;
    TailWindow(sized, after, payload, d);
    assert sized <= d;
    var _ := StepSizedFlags(w, h, obuSize, d);
    PartsReadBack(d, |w|, h, obuSize, |sized|, after);
  }

  lemma WindowHeader(d: BitSeq, p: nat)
    requires RWindow(d, p).Ok?
    ensures RHeaderParts(d, p).Ok? && RHeaderParts(d, p).value.header == RWindow(d, p).value.0
  {
    hide RHeaderParts;
  }

  lemma ObuReadsBack<T>(
      w: BitSeq, h: ObuHeader, body: BitSeq, trailing: seq<u8>, x: T, parse: PayloadReader<T>, d: BitSeq)
      returns (w1: BitSeq)
    requires |body| % 8 == 0 && HeaderCanonical(h)
    requires WObuWith(w, h, Ok(body), trailing).Ok? && WObuWith(w, h, Ok(body), trailing).value <= d
    requires parse(h, WBytes(body, trailing)) == Ok((x, |body|))
    ensures w1 == WObuWith(w, h, Ok(body), trailing).value
    ensures RObu(d, |w|, parse) == Ok((Obu(h, x, trailing), |w1|))
    ensures |w1| % 8 == 0 && RHeaderParts(d, |w|).Ok? && RHeaderParts(d, |w|).value.header == h
  {
    hide WObu, RWindow, RHeaderParts, WBytes, RRest;
    w1 := StepWindow(w, h, WBytes(body, trailing), d);
    ObuAligned(w, h, WBytes(body, trailing));
    WindowHeader(d, |w|);
    var _ := StepRest(body, trailing);
  }

  /**
    Re-framing an OBU whose payload was written again canonically, before the drained trailing bytes. What
    is `minimal` is the payload; the framing adds its own part.
  */
  lemma ObuAgain<T>(
      d: BitSeq, p: nat, w: BitSeq, o: Obu<T>, q: nat, body: BitSeq, e: nat, parse: PayloadReader<T>, minimal: bool)
    requires RObu(d, p, parse) == Ok((o, q)) && |w| % 8 == 0 && |body| % 8 == 0 && Tight(e, |body|, minimal)
    requires var window := RWindow(d, p).value.1;
             parse(o.header, window) == Ok((o.payload, e)) && Canon(window, 0, e, [], body)
    ensures HeaderCanonical(o.header)
    ensures ValidateHeader(o.header).Err? ==>
              WObuWith(w, o.header, Ok(body), o.trailing) == Err(ValidateHeader(o.header).error)
    ensures ValidateHeader(o.header).Ok? ==>
              && WObuWith(w, o.header, Ok(body), o.trailing).Ok?
              && var w1 := WObuWith(w, o.header, Ok(body), o.trailing).value;
                 Canon(d, p, q, w, w1) && Tight(q - p, |w1| - |w|, FramingMinimal(d, p) && minimal)
  {
    hide WObu, RWindow, WBytes, Canon, ValidateHeader, HeaderCanonical, FramingMinimal;
    var window := RWindow(d, p).value.1;
    var payload := AgainBytes(window, 0, e, Remaining(window, e), [], body);
    WholeWindow(window, e, payload);
    WindowAgain(d, p, w, payload);
  }

  lemma WholeWindow(window: BitSeq, e: nat, payload: BitSeq)
    requires |window| % 8 == 0 && e % 8 == 0 && Canon(window, 0, e + 8 * Remaining(window, e), [], payload)
    requires e <= |window|
    ensures |payload| <= |window| && (|payload| == |window| ==> payload == window)
    ensures e + 8 * Remaining(window, e) == |window|
  {
    assert e + 8 * Remaining(window, e) == |window|;
  }

  lemma FlagsAgain(d: BitSeq, p: nat, w: BitSeq, h: ObuHeader) returns (w1: BitSeq)
    requires RFlags(d, p).Ok?
    requires RFlags(d, p).value == (h.obuType, h.redundantCopy, h.TrimmingFlag(), h.ExtensionFlag(), p + 8)
    ensures WFlags(w, h) == Ok(w1) && Canon(d, p, p + 8, w, w1)
    ensures h.obuType.ReservedObu? ==> 24 <= h.obuType.raw <= 30
  {
    hide WU, RU, WBool, RBool, Canon;
    PowersOfTwo();
    TypeValueRoundTrip(h.obuType, RU8(d, p, 5).value.0);
    assert Canon(d, p, p, w, w) by { CanonStart(d, p, w); }
    var a := AgainU(d, p, p, 5, w, w);
    var b := AgainBool(d, p, p + 5, w, a);
    var c := AgainBool(d, p, p + 6, w, b);
    w1 := AgainBool(d, p, p + 7, w, c);
  }

  lemma AfterSizeAgain(d: BitSeq, t: ObuType, trimmingFlag: bool, extensionFlag: bool) returns (w1: BitSeq)
    requires RAfterSize(d, 0, t, trimmingFlag, extensionFlag).Ok?
    ensures var (typeSpecific, extension, q) := RAfterSize(d, 0, t, trimmingFlag, extensionFlag).value;
            && Canon(d, 0, q, [], w1) && Tight(q, |w1|, AfterSizeMinimal(d, trimmingFlag, extensionFlag))
            && forall redundant ::
                 var h := ObuHeader(t, redundant, typeSpecific, extension);
                 && h.TrimmingFlag() == trimmingFlag && h.ExtensionFlag() == extensionFlag
                 && (!h.TrimmingFlag() ==>
                       h.typeSpecific == if t.IsAudioFrame() then TrimmingField(None) else NoTypeSpecific)
                 && WAfterSize([], h) == Ok(w1)
  {
    hide WLeb, RLeb, LebMinimal, WBytes, RSpan, Canon;
    var p := 0;
    w1 := [];
    CanonStart(d, 0, []);
    if trimmingFlag {
      w1 := AgainLeb(d, 0, p, [], w1);
      p := RLeb(d, p).value.1;
      w1 := AgainLeb(d, 0, p, [], w1);
      p := RLeb(d, p).value.1;
    }
    if extensionFlag {
      w1 := AgainLeb(d, 0, p, [], w1);
      var len, q := RLeb(d, p).value.0, RLeb(d, p).value.1;
      w1 := AgainBytes(d, 0, q, len, [], w1);
    }
  }

  lemma LebStaysAligned(d: BitSeq, p: nat)
    requires p % 8 == 0 && RLeb(d, p).Ok?
    ensures RLeb(d, p).value.1 % 8 == 0
  {
    hide RGroups;
    var q := RLeb(d, p).value.1;
    WholeBytes(p, (q - p) / 8);
  }

  lemma AfterSizeAligned(d: BitSeq, t: ObuType, trimmingFlag: bool, extensionFlag: bool)
    requires RAfterSize(d, 0, t, trimmingFlag, extensionFlag).Ok?
    ensures RAfterSize(d, 0, t, trimmingFlag, extensionFlag).value.2 % 8 == 0
  {
    hide RLeb, RSpan;
    var p := 0;
    if trimmingFlag {
      LebStaysAligned(d, 0);
      LebStaysAligned(d, RLeb(d, 0).value.1);
      p := RLeb(d, RLeb(d, 0).value.1).value.1;
    }
    if extensionFlag {
      LebStaysAligned(d, p);
      var (len, q) := RLeb(d, p).value;
      WholeBytes(q, len);
    }
  }

  /** A written OBU is a whole number of bytes. */
  lemma ObuAligned(w: BitSeq, h: ObuHeader, payload: BitSeq)
    requires |payload| % 8 == 0 && WObu(w, h, payload).Ok?
    ensures |w| % 8 == 0 && |WObu(w, h, payload).value| % 8 == 0
  {
    hide WSizedFlags, WAfterSize, ValidateHeader;
    var after := WAfterSize([], h).value;
    var sized := WSizedFlags(w, h, |after| / 8 + |payload| / 8).value;
    assert |after| % 8 == 0;
    assert |sized| % 8 == 0;
  }

  lemma MinimalLenMonotone(a: u32, b: u32)
    requires a <= b
    ensures MinimalLen(a) <= MinimalLen(b)
  {
  }

  lemma SizedFlagsAgain(d: BitSeq, p: nat, w: BitSeq, h: ObuHeader, obuSize: u32) returns (w1: BitSeq)
    requires RSizedFlags(d, p).Ok?
    requires var v := RSizedFlags(d, p).value;
             (v.0, v.1, v.2, v.3) == (h.obuType, h.redundantCopy, h.TrimmingFlag(), h.ExtensionFlag()) && obuSize <= v.4
    ensures WSizedFlags(w, h, obuSize) == Ok(w1)
    ensures ValidateObuSize(obuSize, MinimalLen(obuSize)).Ok?
    ensures |w1| - |w| <= RSizedFlags(d, p).value.5 - p
    ensures obuSize == RSizedFlags(d, p).value.4 ==>
              var q := RSizedFlags(d, p).value.5;
              Canon(d, p, q, w, w1) && (|w1| - |w| == q - p <==> LebMinimal(d, p + 8))
    ensures h.obuType.ReservedObu? ==> 24 <= h.obuType.raw <= 30
  {
    hide WLeb, RLeb, WFlags, RFlags, MinimalLen;
    var flags := FlagsAgain(d, p, w, h);
    var s := p + 8;
    var (oldSize, q) := RLeb(d, s).value;
    var sized := AgainLeb(d, p, s, w, flags);
    w1 := WLeb(flags, obuSize);
    MinimalLenMonotone(obuSize, oldSize);
    assert 8 * MinimalLen(oldSize) <= q - s;
  }

  /** What a successful `RWindow` found, piece by piece, with the after-size fields written again. */
  lemma WindowShape(d: BitSeq, p: nat)
      returns (h: ObuHeader, window: BitSeq, end: nat, q: nat, obuSize: u32, after: BitSeq)
    requires RWindow(d, p).Ok?
    ensures RWindow(d, p) == Ok((h, window, end))
    ensures RSizedFlags(d, p) == Ok((h.obuType, h.redundantCopy, h.TrimmingFlag(), h.ExtensionFlag(), obuSize, q))
    ensures (!h.TrimmingFlag() ==>
               h.typeSpecific == if h.obuType.IsAudioFrame() then TrimmingField(None) else NoTypeSpecific)
    ensures q % 8 == 0 && end == q + 8 * obuSize <= |d| && |window| % 8 == 0 && |window| <= end - q
    ensures window == d[end - |window|..end]
    ensures WAfterSize([], h) == Ok(after) && |after| % 8 == 0 && |after| <= end - |window| - q
    ensures |after| == end - |window| - q ==> after == d[q..end - |window|]
    ensures FramingMinimal(d, p) <==> LebMinimal(d, p + 8) && |after| == end - |window| - q
  {
    hide RSizedFlags, RAfterSize, WAfterSize, LebMinimal, AfterSizeMinimal;
    h, window, end := RWindow(d, p).value.0, RWindow(d, p).value.1, RWindow(d, p).value.2;
    var v := RSizedFlags(d, p).value;
    obuSize, q := v.4, v.5;
    var inner := d[q..q + 8 * obuSize];
    after := AfterSizeAgain(inner, v.0, v.2, v.3);
    var qa := RAfterSize(inner, 0, v.0, v.2, v.3).value.2;
    AfterSizeAligned(inner, v.0, v.2, v.3);
    SubSlice(d, q, end, 0, qa);
  }

  lemma ResizedCanon(
      d: BitSeq, p: nat, q: nat, m: nat, end: nat, w: BitSeq, sized: BitSeq, after: BitSeq, payload: BitSeq)
    requires p <= q <= m <= end <= |d| && w <= sized && |sized| - |w| <= q - p
    requires |after| <= m - q && |payload| <= end - m
    requires |sized| - |w| == q - p && |after| == m - q && |payload| == end - m ==>
               sized[|w|..] == d[p..q] && after == d[q..m] && payload == d[m..end]
    ensures Canon(d, p, end, w, sized + after + payload)
  {
    var w1 := sized + after + payload;
    if |w1| - |w| == end - p {
      assert w1[|w|..] == sized[|w|..] + after + payload;
      SliceJoin(d, p, q, m);
      SliceJoin(d, p, m, end);
    }
  }

  /**
    Re-framing: an OBU read from `d`, given a payload no longer than the one it had, is written again
    in no more bytes, unless its header is one the writer refuses.
  */
  lemma WindowAgain(d: BitSeq, p: nat, w: BitSeq, payload: BitSeq)
    requires RWindow(d, p).Ok? && |w| % 8 == 0 && |payload| % 8 == 0
    requires var window := RWindow(d, p).value.1;
             |payload| <= |window| && (|payload| == |window| ==> payload == window)
    ensures var (h, window, q) := RWindow(d, p).value;
            && HeaderCanonical(h)
            && (ValidateHeader(h).Err? ==> WObu(w, h, payload) == Err(ValidateHeader(h).error))
            && (ValidateHeader(h).Ok? ==>
                  && WObu(w, h, payload).Ok?
                  && var w1 := WObu(w, h, payload).value;
                     && Canon(d, p, q, w, w1)
                     && Tight(q - p, |w1| - |w|, FramingMinimal(d, p) && |payload| == |window|))
  {
    hide RWindow, WSizedFlags, RSizedFlags, WAfterSize, MinimalLen, ValidateObuSize, ValidateHeader, Canon;
    hide FramingMinimal, LebMinimal;
    var h, window, end, q, obuSize, after := WindowShape(d, p);
    var size' := |after| / 8 + |payload| / 8;
    assert size' <= obuSize;
    var sized := SizedFlagsAgain(d, p, w, h, size');
    if ValidateHeader(h).Ok? {
      assert WObu(w, h, payload) == Ok(sized + after + payload);
      if |after| == end - |window| - q && |payload| == |window| {
        assert size' == obuSize;
        assert Canon(d, p, q, w, sized);
      }
      CanonSuffix(d, p, q, w, sized, size' == obuSize);
      ResizedCanon(d, p, q, end - |window|, end, w, sized, after, payload);
    }
  }

  lemma CanonSuffix(d: BitSeq, p: nat, q: nat, w: BitSeq, w1: BitSeq, known: bool)
    requires known ==> Canon(d, p, q, w, w1)
    ensures known && |w1| - |w| == q - p ==> p <= q <= |d| && |w| <= |w1| && w1[|w|..] == d[p..q]
  {
  }

  /** An OBU is framed by its own bits alone. */
  lemma WindowLocal(d: BitSeq, d1: BitSeq, p: nat)
    requires RWindow(d, p).Ok?
    requires var q := RWindow(d, p).value.2; q <= |d1| && d1[p..q] == d[p..q]
    ensures RWindow(d1, p) == RWindow(d, p)
  {
    hide RAfterSize, RFlags, RLeb, ValidateObuSize;
    var end := RWindow(d, p).value.2;
    var (_, _, _, _, obuSize, q) := RSizedFlags(d, p).value;
    FlagsLocal(d, d1, p, end);
    SizeLocal(d, d1, p, end);
    SubSlice(d, p, end, q - p, end - p);
    SubSlice(d1, p, end, q - p, end - p);
    assert d1[q..q + 8 * obuSize] == d[q..q + 8 * obuSize];
    var m := RHeaderParts(d, p).value.pos;
    SubSlice(d, p, end, m - p, end - p);
    SubSlice(d1, p, end, m - p, end - p);
  }

  lemma FlagsLocal(d: BitSeq, d1: BitSeq, p: nat, end: nat)
    requires p + 8 <= end <= |d| && end <= |d1| && d1[p..end] == d[p..end]
    ensures RFlags(d1, p) == RFlags(d, p)
  {
    hide Val;
    SubSlice(d, p, end, 0, 5);
    SubSlice(d1, p, end, 0, 5);
    assert forall i | p <= i < end :: d[i] == d[p..end][i - p] == d1[i];
  }

  lemma SizeLocal(d: BitSeq, d1: BitSeq, p: nat, end: nat)
    requires RLeb(d, p + 8).Ok? && RLeb(d, p + 8).value.1 <= end
    requires p + 8 <= end <= |d| && end <= |d1| && d1[p..end] == d[p..end]
    ensures RLeb(d1, p + 8) == RLeb(d, p + 8)
  {
    hide RGroups;
    var q := RLeb(d, p + 8).value.1;
    SubSlice(d, p, end, 8, q - p);
    SubSlice(d1, p, end, 8, q - p);
    GroupsLocal(d, d1, p + 8, MAX_LEB128_SIZE);
  }
}
