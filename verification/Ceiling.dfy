/**
  The 2 MiB ceiling of an OBU: when the size field can hold what an OBU has, and that for the OBUs an encoder
  makes nothing else is ever refused.
*/
module Ceilings {
  import opened Core
  import opened Bits
  import opened Leb128
  import opened Obus
  import opened ParameterBlocks
  import opened AudioFrames
  import opened SequenceObus
  import opened Sequences
  import opened Parts
  import opened Streams

  /** The greatest `obu_size`: the ceiling without the header byte and the three bytes this size takes. */
  predicate Fits(obuSize: int) {
    obuSize <= ENTIRE_OBU_SIZE_MAX - 4
  }

  /** The derived size is refused exactly above that. */
  lemma SizeFits(afterLen: nat, payloadLen: nat)
    ensures ObuSizeFor(afterLen, payloadLen) ==
            if Fits(afterLen + payloadLen) then Ok(afterLen + payloadLen) else Err(ObuTooLarge)
  {
  }

  /** How many bytes the after-size fields of a header take. */
  function AfterBytes(h: ObuHeader): nat {
    if WAfterSize([], h).Ok? then |WAfterSize([], h).value| / 8 else 0
  }

  function BodyBytes(body: Result<BitSeq>): nat {
    if body.Ok? then |body.value| / 8 else 0
  }

  lemma FlagsWrite(w: BitSeq, h: ObuHeader)
    requires !h.obuType.ReservedObu?
    ensures WFlags(w, h).Ok?
  {
    hide Pow2;
    PowersOfTwo();
  }

  /** With a header and a payload that can be written, an OBU is refused exactly above the ceiling. */
  lemma ObuFits(w: BitSeq, h: ObuHeader, body: Result<BitSeq>, trailing: seq<u8>)
    requires |w| % 8 == 0 && body.Ok? && |body.value| % 8 == 0
    requires !h.obuType.ReservedObu? && ValidateHeader(h).Ok? && WAfterSize([], h).Ok?
    ensures WObuWith(w, h, body, trailing).Ok? <==> Fits(AfterBytes(h) + BodyBytes(body) + |trailing|)
    ensures WObuWith(w, h, body, trailing).Err? ==> WObuWith(w, h, body, trailing) == Err(ObuTooLarge)
  {
    hide WAfterSize, WFlags, WLeb, ValidateHeader, ObuSizeFor, Fits;
    FlagsWrite(w, h);
    SizeFits(|WAfterSize([], h).value| / 8, |WBytes(body.value, trailing)| / 8);
  }

  // ------------------------------------------------------------ a run of OBUs

  /** Descriptors, which ignore the registry, or temporal OBUs, which leave it as it is. */
  predicate OneKind(s: seq<SequenceObu>) {
    || (forall k | 0 <= k < |s| :: !s[k].Block?)
    || (forall k | 0 <= k < |s| :: IsTemporal(s[k]))
  }

  /** A run is written exactly when each of its OBUs can be written on its own, and fails as one of them does. */
  lemma {:induction false} AllAlone(w: BitSeq, registry: Registry, s: seq<SequenceObu>)
    requires |w| % 8 == 0 && OneKind(s)
    ensures WAll(w, registry, s).Ok? <==> forall k | 0 <= k < |s| :: WSeqObu([], registry, s[k]).Ok?
    ensures WAll(w, registry, s).Err? ==>
              exists k | 0 <= k < |s| :: WSeqObu([], registry, s[k]) == Err(WAll(w, registry, s).error)
    decreases |s|
  {
    hide WSeqObu, Observe, IsTemporal;
    if s != [] {
      SeqObuBehind(w, registry, s[0]);
      if WSeqObu([], registry, s[0]).Ok? {
        var next, rest := Observe(registry, s[0]), s[1..];
        SeqObuAligned(w, registry, s[0]);
        AllAlone(WSeqObu(w, registry, s[0]).value, next, rest);
        forall k | 0 <= k < |rest| ensures WSeqObu([], next, rest[k]) == WSeqObu([], registry, s[k + 1]) {
          SameJudgement(registry, s, k + 1);
        }
        assert forall k | 0 < k < |s| :: s[k] == rest[k - 1];
        if WAll(w, registry, s).Err? {
          var k :| 0 <= k < |rest| && WSeqObu([], next, rest[k]) == Err(WAll(w, registry, s).error);
          assert WSeqObu([], registry, s[k + 1]) == Err(WAll(w, registry, s).error);
        }
      }
    }
  }

  lemma SameJudgement(registry: Registry, s: seq<SequenceObu>, k: nat)
    requires OneKind(s) && 0 < k < |s|
    ensures WSeqObu([], Observe(registry, s[0]), s[k]) == WSeqObu([], registry, s[k])
  {
    hide WSeqObu;
    if !s[k].Block? {
      DescriptorsIgnoreRegistry([], registry, s[k]);
      DescriptorsIgnoreRegistry([], Observe(registry, s[0]), s[k]);
    }
  }

  // ------------------------------------------------------------ one temporal unit

  /** What an encoder's audio frame takes after `obu_size`: its trims, an explicit id, and the access unit. */
  function FrameBytes(o: Obu<AudioFrame>): nat {
    (if o.header.TrimmingFlag()
     then MinimalLen(o.header.typeSpecific.trim.value.atEnd) + MinimalLen(o.header.typeSpecific.trim.value.atStart)
     else 0)
    + (if o.payload.substreamId > MAX_IMPLICIT_SUBSTREAM_ID then MinimalLen(o.payload.substreamId) else 0)
    + |o.payload.payload|
  }

  predicate UnitFits(definitions: Registry, u: TemporalUnit) {
    && (forall k | 0 <= k < |u.parameterBlocks| ::
          Fits(BodyBytes(WGovernedBlock(definitions, u.parameterBlocks[k].payload))))
    && (forall k | 0 <= k < |u.audioFrames| :: Fits(FrameBytes(u.audioFrames[k])))
  }

  lemma FrameJudged(registry: Registry, frame: AudioFrame, t: Option<Trimming>)
    ensures var o := IntoObu(frame, t);
            && (WSeqObu([], registry, FlatFrame(o)).Ok? <==> Fits(FrameBytes(o)))
            && (WSeqObu([], registry, FlatFrame(o)).Err? ==> WSeqObu([], registry, FlatFrame(o)) == Err(ObuTooLarge))
  {
    hide WObuWith, WLeb, WBytes, MinimalLen, Fits;
    var o := IntoObu(frame, t);
    ImplicitIdRoundTrip(frame.substreamId, ObuTypeFor(frame.substreamId));
    FrameWrites(o.header, frame);
    ObuFits([], o.header, WAudioFrame([], o.header, frame), []);
  }

  lemma FrameWrites(h: ObuHeader, frame: AudioFrame)
    requires h.obuType == ObuTypeFor(frame.substreamId) && h.extension.None? && h.typeSpecific.TrimmingField?
    requires !h.redundantCopy
    ensures ValidateHeader(h).Ok? && WAfterSize([], h).Ok? && !h.obuType.ReservedObu?
    ensures WAudioFrame([], h, frame).Ok? && |WAudioFrame([], h, frame).value| % 8 == 0
    ensures AfterBytes(h) + BodyBytes(WAudioFrame([], h, frame)) == FrameBytes(Obu(h, frame, []))
  {
    hide WLeb, WBytes, MinimalLen;
    ImplicitIdRoundTrip(frame.substreamId, ObuTypeFor(frame.substreamId));
  }

  lemma BlockJudged(registry: Registry, block: ParameterBlock)
    requires WGovernedBlock(registry, block).Ok? && BlockClean(block)
    ensures var o := Obu(ObuHeader.New(ParameterBlockObu), block, []);
            && (WSeqObu([], registry, FlatBlock(o)).Ok? <==> Fits(BodyBytes(WGovernedBlock(registry, block))))
            && (WSeqObu([], registry, FlatBlock(o)).Err? ==> WSeqObu([], registry, FlatBlock(o)) == Err(ObuTooLarge))
  {
    hide WObuWith, WParameterBlock, Fits, BlockClean;
    var body := WGovernedBlock(registry, block);
    var _ := StepParameterBlock([], registry, block, body.value);
    ObuFits([], ObuHeader.New(ParameterBlockObu), body, []);
  }
}
