/** The structural walk over a byte stream: byte 0 and `obu_size`, nothing else. */
module Boundaries {
  import opened Core
  import opened Bits
  import opened Leb128
  import opened Obus
  import opened ParameterBlocks
  import opened SequenceObus
  import opened Sequences
  import opened BitCursors

  /** Where the OBU at `p` ends. */
  function NextObu(d: BitSeq, p: nat): (r: Result<nat>)
    ensures r.Ok? ==> p + 16 <= r.value <= |d|
  {
    hide RLeb, ValidateObuSize;
    if p + 8 > |d| then Err(TruncatedObu)
    else
      var size := RLeb(d, p + 8);
      if size.Err? then Err(if size.error == UnexpectedEndOfInput then TruncatedObu else size.error)
      else
        var (obuSize, q) := size.value;
        var _ :- ValidateObuSize(obuSize, (q - (p + 8)) / 8);
        if q + 8 * obuSize > |d| then Err(TruncatedObu) else Ok(q + 8 * obuSize)
  }

  function Joined(found: seq<nat>, rest: Result<seq<nat>>): Result<seq<nat>> {
    match rest
    case Ok(more) => Ok(found + more)
    case Err(e) => Err(e)
  }

  /** Every OBU start from bit `p`, in bytes, and the final end. */
  function BoundariesFrom(d: BitSeq, p: nat): Result<seq<nat>>
    decreases |d| - p
  {
    if p >= |d| then Ok([p / 8])
    else
      match NextObu(d, p)
      case Err(e) => Err(e)
      case Ok(next) => Joined([p / 8], BoundariesFrom(d, next))
  }

  /** `find_obu_boundaries`. */
  method FindObuBoundaries(bytes: seq<u8>) returns (r: Result<seq<nat>>)
    ensures r == BoundariesFrom(BytesBits(bytes), 0)
  {
    hide NextObu, BytesBits, RLeb;
    ghost var d := BytesBits(bytes);
    var boundaries: seq<nat> := [];
    var position := 0;
    assert BoundariesFrom(d, 0).Ok? ==> [] + BoundariesFrom(d, 0).value == BoundariesFrom(d, 0).value;
    while true
      invariant position <= |bytes|
      invariant Joined(boundaries, BoundariesFrom(d, 8 * position)) == BoundariesFrom(d, 0)
      decreases |bytes| - position
    {
      Unjoin(d, 8 * position, boundaries);
      boundaries := boundaries + [position];
      if position >= |bytes| {
        return Ok(boundaries);
      }
      var next := StepOver(bytes, position);
      if next.Err? {
        return Err(next.error);
      }
      position := next.value;
    }
  }

  /** One turn of the walk, on a cursor over the rest of the input. */
  method StepOver(bytes: seq<u8>, position: nat) returns (r: Result<nat>)
    requires position < |bytes|
    ensures match NextObu(BytesBits(bytes), 8 * position)
            case Ok(next) => r.Ok? && 8 * r.value == next && position < r.value <= |bytes|
            case Err(e) => r == Err(e)
  {
    hide BytesBits, RLeb, RU, ValidateObuSize;
    ghost var d := BytesBits(bytes);
    Suffix(bytes, position);
    var cursor := new BitCursor(bytes[position..]);
    var _ := cursor.ReadUnsigned(8);
    FirstByte(cursor.Wire());
    assert cursor.Pos() == 8;
    LebShift(d, 8 * position, 8);
    var size := cursor.ReadUleb128();
    if size.Err? {
      return Err(if size.error == UnexpectedEndOfInput then TruncatedObu else size.error);
    }
    var sizeOfObuSize := cursor.bytePos - 1;
    assert cursor.Pos() % 8 == 0 && cursor.bytePos == cursor.Pos() / 8;
    var _ :- ValidateObuSize(size.value, sizeOfObuSize);
    var next := position + 1 + sizeOfObuSize + size.value;
    if next > |bytes| {
      return Err(TruncatedObu);
    }
    r := Ok(next);
  }

  lemma FirstByte(d: BitSeq)
    ensures |d| >= 8 ==> RU(d, 0, 8).Ok?
  {
  }

  lemma Unjoin(d: BitSeq, p: nat, found: seq<nat>)
    ensures p >= |d| ==> Joined(found, BoundariesFrom(d, p)) == Ok(found + [p / 8])
    ensures p < |d| && NextObu(d, p).Err? ==> Joined(found, BoundariesFrom(d, p)) == Err(NextObu(d, p).error)
    ensures p < |d| && NextObu(d, p).Ok? ==>
              Joined(found, BoundariesFrom(d, p)) == Joined(found + [p / 8], BoundariesFrom(d, NextObu(d, p).value))
  {
    hide NextObu;
    if p < |d| && NextObu(d, p).Ok? {
      var rest := BoundariesFrom(d, NextObu(d, p).value);
      if rest.Ok? {
        assert found + ([p / 8] + rest.value) == found + [p / 8] + rest.value;
      }
    }
  }

  /** The bits of the rest of the input are the rest of its bits. */
  lemma Suffix(bytes: seq<u8>, k: nat)
    requires k <= |bytes|
    ensures BytesBits(bytes[k..]) == BytesBits(bytes)[8 * k..]
  {
    hide BytesBits;
    BytesBitsConcat(bytes[..k], bytes[k..]);
    assert bytes == bytes[..k] + bytes[k..];
  }

  lemma {:induction false} GroupsShift(d: BitSeq, k: nat, p: nat, left: nat)
    requires k <= |d|
    ensures match RGroups(d[k..], p, left)
            case Ok((v, q)) => RGroups(d, k + p, left) == Ok((v, k + q))
            case Err(e) => RGroups(d, k + p, left) == Err(e)
    decreases left
  {
    hide Val;
    if left > 0 {
      ByteShift(d, k, p);
      GroupsShift(d, k, p + 8, left - 1);
    }
  }

  lemma ByteShift(d: BitSeq, k: nat, p: nat)
    requires k <= |d|
    ensures match RU8(d[k..], p, 8)
            case Ok((v, q)) => RU8(d, k + p, 8) == Ok((v, k + q))
            case Err(e) => RU8(d, k + p, 8) == Err(e)
  {
    hide Val;
    if p + 8 <= |d[k..]| {
      assert d[k..][p..p + 8] == d[k + p..k + p + 8];
    }
  }

  lemma LebShift(d: BitSeq, k: nat, p: nat)
    requires k <= |d|
    ensures match RLeb(d[k..], p)
            case Ok((v, q)) => RLeb(d, k + p) == Ok((v, k + q))
            case Err(e) => RLeb(d, k + p) == Err(e)
  {
    hide RGroups;
    GroupsShift(d, k, p, MAX_LEB128_SIZE);
  }

  // ------------------------------------------------------------ properties

  /** On an OBU the reader accepts, the walk and the reader agree on where it ends. */
  lemma WalkAgrees(d: BitSeq, p: nat, registry: Registry)
    requires RSeqObu(d, p, registry).Ok?
    ensures NextObu(d, p) == Ok(RSeqObu(d, p, registry).value.1)
  {
    hide RSeqObu, RLeb, RFlags, ValidateObuSize, RWindow, RHeaderParts;
    WindowSeen(d, p, registry);
    var h, window, end, q, obuSize, after := WindowShape(d, p);
  }

  /** Where a reader run stood before each OBU and at its end, in bytes. */
  function ReaderPositions(d: BitSeq, p: nat, registry: Registry): seq<nat>
    decreases |d| - p
  {
    if Remaining(d, p) == 0 || RSeqObu(d, p, registry).Err? then [p / 8]
    else
      var (o, q) := RSeqObu(d, p, registry).value;
      [p / 8] + ReaderPositions(d, q, Observe(registry, o))
  }

  /** On any input that parses, the boundaries are the reader's successive positions, ending at the length. */
  lemma {:induction false} BoundariesOfReader(d: BitSeq, p: nat, registry: Registry)
    requires |d| % 8 == 0 && p % 8 == 0 && p <= |d| && ReadAll(d, p, registry).failure.None?
    ensures BoundariesFrom(d, p) == Ok(ReaderPositions(d, p, registry))
    ensures var b := ReaderPositions(d, p, registry);
            |b| == |ReadAll(d, p, registry).items| + 1 && b[0] == p / 8 && b[|b| - 1] == |d| / 8
    decreases |d| - p
  {
    hide RSeqObu, NextObu, Observe;
    if Remaining(d, p) != 0 {
      var (o, q) := RSeqObu(d, p, registry).value;
      WalkAgrees(d, p, registry);
      SeqObuEndAligned(d, p, registry);
      BoundariesOfReader(d, q, Observe(registry, o));
    }
  }

  /** OBUs given as a header and payload bits, written one after another. */
  function WObus(w: BitSeq, obus: seq<(ObuHeader, BitSeq)>): Result<BitSeq>
    requires forall o | o in obus :: |o.1| % 8 == 0
    decreases |obus|
  {
    if obus == [] then Ok(w)
    else
      var w :- WObu(w, obus[0].0, obus[0].1);
      WObus(w, obus[1..])
  }

  /** The length before each OBU is written and after the last, in bytes. */
  function PrefixSums(w: BitSeq, obus: seq<(ObuHeader, BitSeq)>): seq<nat>
    requires (forall o | o in obus :: |o.1| % 8 == 0) && WObus(w, obus).Ok?
    decreases |obus|
  {
    if obus == [] then [|w| / 8]
    else [|w| / 8] + PrefixSums(WObu(w, obus[0].0, obus[0].1).value, obus[1..])
  }

  lemma {:induction false} WObusGrow(w: BitSeq, obus: seq<(ObuHeader, BitSeq)>)
    requires (forall o | o in obus :: |o.1| % 8 == 0) && WObus(w, obus).Ok?
    ensures w <= WObus(w, obus).value
    decreases |obus|
  {
    hide WObu;
    if obus != [] {
      WObusGrow(WObu(w, obus[0].0, obus[0].1).value, obus[1..]);
    }
  }

  /** The walk steps over one written OBU, whatever its header says. */
  lemma WalkOverWritten(w: BitSeq, h: ObuHeader, payload: BitSeq, d: BitSeq)
    requires |payload| % 8 == 0 && WObu(w, h, payload).Ok? && WObu(w, h, payload).value <= d
    ensures NextObu(d, |w|) == Ok(|WObu(w, h, payload).value|)
  {
    hide WFlags, WLeb, RLeb, WAfterSize, ValidateHeader, ValidateObuSize, MinimalLen;
    var after := WAfterSize([], h).value;
    var obuSize := ObuSizeFor(|after| / 8, |payload| / 8).value;
    var flags := WFlags(w, h).value;
    var w1 := WObu(w, h, payload).value;
    assert WSizedFlags(w, h, obuSize) == Ok(WLeb(flags, obuSize)) && WLeb(flags, obuSize) <= w1;
    var _ := StepLeb(flags, obuSize, d);
  }

  /** Over written OBUs the boundaries are exactly the prefix sums, ending at the length. */
  lemma {:induction false} BoundariesOfWritten(w: BitSeq, obus: seq<(ObuHeader, BitSeq)>)
    requires |w| % 8 == 0 && (forall o | o in obus :: |o.1| % 8 == 0) && WObus(w, obus).Ok?
    ensures BoundariesFrom(WObus(w, obus).value, |w|) == Ok(PrefixSums(w, obus))
    ensures var b := PrefixSums(w, obus); |b| == |obus| + 1 && b[|b| - 1] == |WObus(w, obus).value| / 8
    decreases |obus|
  {
    hide WObu, NextObu;
    if obus != [] {
      var next := WObu(w, obus[0].0, obus[0].1).value;
      WObusGrow(next, obus[1..]);
      ObuAligned(w, obus[0].0, obus[0].1);
      WalkOverWritten(w, obus[0].0, obus[0].1, WObus(w, obus).value);
      BoundariesOfWritten(next, obus[1..]);
    }
  }
}
