/** The Audio Frame payload and the implicit substream ids its OBU type carries. */
module AudioFrames {
  import opened Core
  import opened Bits
  import opened Leb128
  import opened Obus

  datatype AudioFrame = AudioFrame(substreamId: u32, payload: seq<u8>)

  function ObuTypeFor(substreamId: u32): ObuType {
    if substreamId > MAX_IMPLICIT_SUBSTREAM_ID then AudioFrameObu else ObuType.FromValue(substreamId + 6)
  }

  function SubstreamIdFor(t: ObuType): Option<u32> {
    if 6 <= t.Value() <= 23 then Some(t.Value() - 6) else None
  }

  /** `AudioFrame::into_obu`: the canonical OBU of a frame. */
  function IntoObu(frame: AudioFrame, trimming: Option<Trimming>): Obu<AudioFrame> {
    Obu(ObuHeader(ObuTypeFor(frame.substreamId), false, TrimmingField(trimming), None), frame, [])
  }

  function WAudioFrame(w: BitSeq, h: ObuHeader, frame: AudioFrame): Result<BitSeq> {
    hide WLeb;
    var implicitId := SubstreamIdFor(h.obuType);
    if implicitId.Some? then
      if implicitId.value != frame.substreamId then Err(SubstreamIdMismatch) else Ok(WBytes(w, frame.payload))
    else if h.obuType.Value() != 5 then Err(NotAnAudioFrame)
    else Ok(WBytes(WLeb(w, frame.substreamId), frame.payload))
  }

  function RAudioFrame(d: BitSeq, p: nat, h: ObuHeader): Result<(AudioFrame, nat)> {
    hide RLeb;
    var implicitId := SubstreamIdFor(h.obuType);
    if implicitId.None? && h.obuType.Value() != 5 then Err(NotAnAudioFrame)
    else
      var (id, p) :- if implicitId.Some? then Ok((implicitId.value, p)) else RLeb(d, p);
      var (payload, p) :- RRest(d, p);
      Ok((AudioFrame(id, payload), p))
  }

  predicate FrameMinimal(d: BitSeq, h: ObuHeader) {
    SubstreamIdFor(h.obuType).None? ==> LebMinimal(d, 0)
  }

  /** The two halves of the implicit-id rule are inverse. */
  lemma ImplicitIdRoundTrip(id: u32, t: ObuType)
    ensures ObuTypeFor(id).IsAudioFrame()
    ensures id <= MAX_IMPLICIT_SUBSTREAM_ID ==> SubstreamIdFor(ObuTypeFor(id)) == Some(id)
    ensures id > MAX_IMPLICIT_SUBSTREAM_ID ==> SubstreamIdFor(ObuTypeFor(id)) == None
    ensures SubstreamIdFor(t).Some? ==> ObuTypeFor(SubstreamIdFor(t).value).Value() == t.Value()
  {
  }

  /** A frame takes the rest of its payload, so it is read back only when nothing follows it. */
  lemma StepAudioFrame(h: ObuHeader, frame: AudioFrame) returns (w1: BitSeq)
    requires WAudioFrame([], h, frame).Ok?
    ensures w1 == WAudioFrame([], h, frame).value && |w1| % 8 == 0
    ensures RAudioFrame(w1, 0, h) == Ok((frame, |w1|))
  {
    hide WLeb, RLeb, WBytes, RRest;
    w1 := WAudioFrame([], h, frame).value;
    var head := if SubstreamIdFor(h.obuType).Some? then [] else WLeb([], frame.substreamId);
    assert |head| % 8 == 0;
    var _ := StepRest(head, frame.payload);
    if SubstreamIdFor(h.obuType).None? {
      var _ := StepLeb([], frame.substreamId, w1);
    }
  }

  lemma AgainAudioFrame(d: BitSeq, h: ObuHeader) returns (w1: BitSeq)
    requires |d| % 8 == 0 && RAudioFrame(d, 0, h).Ok?
    ensures var (frame, q) := RAudioFrame(d, 0, h).value;
            && WAudioFrame([], h, frame) == Ok(w1) && q == |d| && Canon(d, 0, q, [], w1)
            && Tight(q, |w1|, FrameMinimal(d, h))
  {
    hide WLeb, RLeb, LebMinimal, WBytes, Canon;
    CanonStart(d, 0, []);
    var p := 0;
    w1 := [];
    if SubstreamIdFor(h.obuType).None? {
      w1 := AgainLeb(d, 0, 0, [], []);
      p := RLeb(d, 0).value.1;
    }
    w1 := AgainBytes(d, 0, p, Remaining(d, p), [], w1);
  }

  // ------------------------------------------------------------ one temporal unit

  function SubstreamIds(frames: seq<Obu<AudioFrame>>): (ids: seq<u32>)
    ensures |ids| == |frames|
    ensures forall i | 0 <= i < |ids| :: ids[i] == frames[i].payload.substreamId
  {
    seq(|frames|, i requires 0 <= i < |frames| => frames[i].payload.substreamId)
  }

  /** The frames from number `i` on, tested in order against the first and against the ones before. */
  function CheckFrames(frames: seq<Obu<AudioFrame>>, i: nat): Result<()>
    requires i <= |frames|
    decreases |frames| - i
  {
    if i == |frames| then Ok(())
    else if frames[i].header.typeSpecific != frames[0].header.typeSpecific then Err(TemporalUnitTrimMismatch)
    else if frames[i].payload.substreamId in SubstreamIds(frames[..i]) then Err(DuplicateSubstreamId)
    else CheckFrames(frames, i + 1)
  }

  function ValidateTemporalUnit(frames: seq<Obu<AudioFrame>>): Result<()> {
    CheckFrames(frames, 0)
  }

  method ValidateUnit(frames: seq<Obu<AudioFrame>>) returns (r: Result<()>)
    ensures r == ValidateTemporalUnit(frames)
  {
    if frames == [] {
      return Ok(());
    }
    var first := frames[0];
    var seen: seq<u32> := [];
    for i := 0 to |frames|
      invariant seen == SubstreamIds(frames[..i]) && CheckFrames(frames, i) == CheckFrames(frames, 0)
    {
      if frames[i].header.typeSpecific != first.header.typeSpecific {
        return Err(TemporalUnitTrimMismatch);
      }
      if frames[i].payload.substreamId in seen {
        return Err(DuplicateSubstreamId);
      }
      seen := seen + [frames[i].payload.substreamId];
    }
    r := Ok(());
  }

  predicate SharedTrim(frames: seq<Obu<AudioFrame>>) {
    forall i | 0 <= i < |frames| :: frames[i].header.typeSpecific == frames[0].header.typeSpecific
  }

  lemma {:induction false} ChecksRest(frames: seq<Obu<AudioFrame>>, i: nat)
    requires i <= |frames|
    requires forall k | 0 <= k < i :: frames[k].header.typeSpecific == frames[0].header.typeSpecific
    requires Distinct(SubstreamIds(frames[..i]))
    ensures CheckFrames(frames, i).Ok? <==> SharedTrim(frames) && Distinct(SubstreamIds(frames))
    decreases |frames| - i
  {
    var ids := SubstreamIds(frames);
    assert forall k | 0 <= k < i :: SubstreamIds(frames[..i])[k] == ids[k];
    if i == |frames| {
      assert frames[..i] == frames;
    } else {
      var id := frames[i].payload.substreamId;
      if id in SubstreamIds(frames[..i]) {
        var k :| 0 <= k < i && SubstreamIds(frames[..i])[k] == id;
        assert ids[k] == ids[i];
      } else if frames[i].header.typeSpecific == frames[0].header.typeSpecific {
        assert SubstreamIds(frames[..i + 1]) == SubstreamIds(frames[..i]) + [id];
        ChecksRest(frames, i + 1);
      }
    }
  }

  /** A unit passes exactly when all its frames carry the same trim field and no substream appears twice. */
  lemma ValidUnitIff(frames: seq<Obu<AudioFrame>>)
    ensures ValidateTemporalUnit(frames).Ok? <==> SharedTrim(frames) && Distinct(SubstreamIds(frames))
  {
    assert SubstreamIds(frames[..0]) == [];
    ChecksRest(frames, 0);
  }
}
