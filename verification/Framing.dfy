/** OBU framing over the mutable writer and cursor. */
module Framing {
  import opened Core
  import opened Bits
  import opened Leb128
  import opened Obus
  import opened BitWriters
  import opened BitCursors

  method WriteAfterSize(w: BitWriter, h: ObuHeader) returns (r: Result<()>)
    requires w.Valid()
    modifies w
    ensures w.Valid() && Did(WAfterSize(old(w.Bits()), h), r, w.Bits())
  {
    hide WLeb, WBytes, w.Bits, w.Valid;
    if h.TrimmingFlag() {
      w.WriteUleb128(h.typeSpecific.trim.value.atEnd);
      w.WriteUleb128(h.typeSpecific.trim.value.atStart);
    }
    if h.extension.Some? {
      if |h.extension.value| >= U32_LIMIT {
        return Err(ObuTooLarge);
      }
      w.WriteUleb128(|h.extension.value|);
      w.WriteBytes(h.extension.value);
    }
    r := Ok(());
  }

  /** Byte 0 and the measured size. */
  method WriteSizedFlags(w: BitWriter, h: ObuHeader, obuSize: u32) returns (r: Result<()>)
    requires w.Valid()
    modifies w
    ensures w.Valid() && Did(WSizedFlags(old(w.Bits()), h, obuSize), r, w.Bits())
    ensures r.Err? ==> w.Bits() == old(w.Bits())
  {
    hide WLeb, WU, WBool, w.Bits, w.Valid;
    var _ :- w.WriteUnsigned(h.obuType.Value(), 5);
    w.WriteBool(h.redundantCopy);
    w.WriteBool(h.TrimmingFlag());
    w.WriteBool(h.ExtensionFlag());
    w.WriteUleb128(obuSize);
    r := Ok(());
  }

  /**
    `write_obu`: two passes, the first into a scratch writer that exists to be measured. It appends one
    whole OBU or leaves the writer as it was.
  */
  method WriteObu(w: BitWriter, h: ObuHeader, payload: seq<u8>) returns (r: Result<()>)
    requires w.Valid()
    modifies w
    ensures w.Valid() && Did(WObu(old(w.Bits()), h, BytesBits(payload)), r, w.Bits())
    ensures r.Err? ==> w.Bits() == old(w.Bits())
  {
    hide WSizedFlags, BytesBits, WAfterSize, ObuSizeFor, ValidateHeader;
    WriterAligned(w);
    if w.bitOff != 0 {
      return Err(NotByteAligned);
    }
    hide w.Bits, w.Valid;
    var _ :- ValidateHeader(h);
    var after := new BitWriter();
    var _ :- WriteAfterSize(after, h);
    var measured := after.AsBytes();
    var fields := measured.value;
    var obuSize :- ObuSizeFor(|fields|, |payload|);
    var _ :- WriteSizedFlags(w, h, obuSize);
    w.WriteBytes(fields);
    w.WriteBytes(payload);
    r := Ok(());
  }

  lemma WriterAligned(w: BitWriter)
    requires w.Valid()
    ensures w.bitOff == 0 <==> |w.Bits()| % 8 == 0
  {
  }

  method ReadAfterSize(r: BitCursor, obuType: ObuType, trimmingFlag: bool, extensionFlag: bool)
      returns (fields: Result<(TypeSpecific, Option<seq<u8>>)>)
    requires r.Valid()
    modifies r`bytePos, r`bitOff
    ensures r.Valid()
    ensures match RAfterSize(r.Wire(), old(r.Pos()), obuType, trimmingFlag, extensionFlag)
            case Ok((t, e, q)) => fields == Ok((t, e)) && r.Pos() == q
            case Err(e) => fields == Err(e)
  {
    hide RLeb, RSpan, BytesBits;
    var typeSpecific := if obuType.IsAudioFrame() then TrimmingField(None) else NoTypeSpecific;
    if trimmingFlag {
      var atEnd :- r.ReadUleb128();
      var atStart :- r.ReadUleb128();
      typeSpecific := TrimmingField(Some(Trimming(atEnd, atStart)));
    }
    var extension: Option<seq<u8>> := None;
    if extensionFlag {
      var len :- r.ReadUleb128();
      var bytes :- r.ReadSpan(len);
      extension := Some(bytes);
    }
    fields := Ok((typeSpecific, extension));
  }

  /** The whole bytes between two positions with the same offset inside a byte. */
  lemma BytesBetween(a: nat, offA: nat, b: nat, offB: nat)
    requires offA <= 7 && offB <= 7 && 8 * a + offA <= 8 * b + offB && (8 * b + offB - (8 * a + offA)) % 8 == 0
    ensures a <= b && b - a == (8 * b + offB - (8 * a + offA)) / 8
  {
  }

  /** Byte 0 and `obu_size`, measured rather than derived: the field may legally be longer than minimal. */
  method ReadSizedFlags(r: BitCursor) returns (parts: Result<(ObuType, bool, bool, bool, u32)>)
    requires r.Valid()
    modifies r`bytePos, r`bitOff
    ensures r.Valid()
    ensures match RSizedFlags(r.Wire(), old(r.Pos()))
            case Ok((t, c, f, e, s, q)) => parts == Ok((t, c, f, e, s)) && r.Pos() == q
            case Err(e) => parts == Err(e)
  {
    hide RLeb, RU8, RBool, RU, BytesBits, r.Wire, ValidateObuSize, ObuType.FromValue;
    var typeValue :- r.ReadU8(5);
    var redundantCopy :- r.ReadBool();
    var trimmingFlag :- r.ReadBool();
    var extensionFlag :- r.ReadBool();
    var sizeStart, sizeStartBit := r.bytePos, r.bitOff;
    var obuSize :- r.ReadUleb128();
    BytesBetween(sizeStart, sizeStartBit, r.bytePos, r.bitOff);
    var _ :- ValidateObuSize(obuSize, r.bytePos - sizeStart);
    parts := Ok((ObuType.FromValue(typeValue), redundantCopy, trimmingFlag, extensionFlag, obuSize));
  }

  /** `read_obu_header_parts`: the after-size fields are read through a window cut from a clone. */
  method ReadHeaderParts(r: BitCursor) returns (parts: Result<HeaderParts>)
    requires r.Valid()
    modifies r`bytePos, r`bitOff
    ensures r.Valid() && parts == RHeaderParts(r.Wire(), old(r.Pos()))
    ensures parts.Ok? ==> r.Pos() == parts.value.pos
  {
    hide RSizedFlags, RWindowed, r.Wire;
    var sized :- ReadSizedFlags(r);
    parts := ReadWindowed(r, sized.0, sized.1, sized.2, sized.3, sized.4);
  }

  /** A window over the next `len` bytes; the cursor itself does not move. */
  method CutWindow(r: BitCursor, len: nat) returns (window: Result<BitCursor>)
    requires r.Valid() && len <= Remaining(r.Wire(), r.Pos())
    ensures r.Pos() % 8 != 0 ==> window == Err(NotByteAligned)
    ensures r.Pos() % 8 == 0 ==>
              && r.Pos() + 8 * len <= |r.Wire()|
              && window.Ok? && fresh(window.value) && window.value.Valid() && window.value.Pos() == 0
              && window.value.Wire() == r.Wire()[r.Pos()..r.Pos() + 8 * len]
  {
    hide BytesBits, r.Wire;
    var probe := r.Clone();
    window := probe.SubReader(len);
  }

  method BytePosition(r: BitCursor) returns (n: nat)
    requires r.Valid() && r.Pos() % 8 == 0
    ensures 8 * n == r.Pos()
  {
    n := r.bytePos;
  }

  /** Past `len` bytes that are known to be there. */
  method Skip(r: BitCursor, len: nat)
    requires r.Valid() && r.Pos() % 8 == 0 && r.Pos() + 8 * len <= |r.Wire()|
    modifies r`bytePos, r`bitOff
    ensures r.Valid() && r.Pos() == old(r.Pos()) + 8 * len
  {
    var _ := r.ReadSpan(len);
  }

  /** The header parts, from what the window gave. */
  lemma WindowedIs(
      d: BitSeq, p: nat, cut: BitSeq, fields: Result<(TypeSpecific, Option<seq<u8>>)>, q: nat,
      obuType: ObuType, redundantCopy: bool, trimmingFlag: bool, extensionFlag: bool, obuSize: u32)
    requires p <= |d| && p % 8 == 0
    requires var available := Remaining(d, p);
             cut == d[p..p + 8 * (if obuSize <= available then obuSize else available)]
    requires match RAfterSize(cut, 0, obuType, trimmingFlag, extensionFlag)
             case Ok((t, e, end)) => fields == Ok((t, e)) && q == end
             case Err(e) => fields == Err(e)
    ensures var parts := RWindowed(d, p, obuType, redundantCopy, trimmingFlag, extensionFlag, obuSize);
            if fields.Ok? then
              && q % 8 == 0 && q <= |cut|
              && parts == Ok(HeaderParts(ObuHeader(obuType, redundantCopy, fields.value.0, fields.value.1), obuSize,
                                         q / 8, p + q))
            else parts == Err(if obuSize <= Remaining(d, p) && fields.error == UnexpectedEndOfInput then TruncatedObu
                              else fields.error)
  {
    hide RAfterSize;
    if fields.Ok? {
      AfterSizeAligned(cut, obuType, trimmingFlag, extensionFlag);
    }
  }

  lemma Unaligned(
      d: BitSeq, p: nat, obuType: ObuType, redundantCopy: bool, trimmingFlag: bool, extensionFlag: bool, obuSize: u32)
    requires p % 8 != 0
    ensures RWindowed(d, p, obuType, redundantCopy, trimmingFlag, extensionFlag, obuSize) == Err(NotByteAligned)
  {
    hide RAfterSize;
  }

  method ReadWindowed(
      r: BitCursor, obuType: ObuType, redundantCopy: bool, trimmingFlag: bool, extensionFlag: bool, obuSize: u32)
      returns (parts: Result<HeaderParts>)
    requires r.Valid()
    modifies r`bytePos, r`bitOff
    ensures r.Valid()
    ensures parts == RWindowed(r.Wire(), old(r.Pos()), obuType, redundantCopy, trimmingFlag, extensionFlag, obuSize)
    ensures parts.Ok? ==> r.Pos() == parts.value.pos
  {
    hide RAfterSize, BytesBits, RWindowed, Remaining, r.Wire, r.Pos, r.Valid;
    if r.Pos() % 8 != 0 {
      Unaligned(r.Wire(), r.Pos(), obuType, redundantCopy, trimmingFlag, extensionFlag, obuSize);
    }
    var available := r.BytesRemaining();
    var len := if obuSize <= available then obuSize else available;
    var window :- CutWindow(r, len);
    ghost var cut := window.Wire();
    var fields := ReadAfterSize(window, obuType, trimmingFlag, extensionFlag);
    WindowedIs(r.Wire(), r.Pos(), cut, fields, window.Pos(),
               obuType, redundantCopy, trimmingFlag, extensionFlag, obuSize);
    if fields.Err? {
      return Err(if obuSize <= available && fields.error == UnexpectedEndOfInput then TruncatedObu else fields.error);
    }
    var consumed := BytePosition(window);
    Skip(r, consumed);
    var pos := BytePosition(r);
    var header := ObuHeader(obuType, redundantCopy, fields.value.0, fields.value.1);
    parts := Ok(HeaderParts(header, obuSize, consumed, 8 * pos));
  }

  /** The first half of `read_obu_with_header`: the header, and a child cursor over exactly its payload. */
  method OpenObu(r: BitCursor) returns (child: Result<(ObuHeader, BitCursor)>)
    requires r.Valid()
    modifies r`bytePos, r`bitOff
    ensures r.Valid()
    ensures child.Ok? <==> RWindow(r.Wire(), old(r.Pos())).Ok?
    ensures child.Err? ==> child.error == RWindow(r.Wire(), old(r.Pos())).error
    ensures child.Ok? ==>
              && fresh(child.value.1) && child.value.1.Valid() && child.value.1.Pos() == 0
              && RWindow(r.Wire(), old(r.Pos())) == Ok((child.value.0, child.value.1.Wire(), r.Pos()))
  {
    hide RHeaderParts, BytesBits;
    var parts :- ReadHeaderParts(r);
    var payload :- r.SubReader(parts.obuSize - parts.afterSize);
    child := Ok((parts.header, payload));
  }

  /** The second half, the one drain: whatever the payload parser left is the trailing bytes. */
  method Drain(payload: BitCursor) returns (trailing: Result<seq<u8>>)
    requires payload.Valid()
    modifies payload`bytePos, payload`bitOff
    ensures payload.Valid()
    ensures match RRest(payload.Wire(), old(payload.Pos()))
            case Ok((bytes, _)) => trailing == Ok(bytes)
            case Err(e) => trailing == Err(e)
  {
    hide BytesBits;
    var remaining := payload.BytesRemaining();
    trailing := payload.ReadSpan(remaining);
  }
}
