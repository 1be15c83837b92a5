/**
  Trimming across a stream: the frame planner, the online automaton the encoder judges each unit with, and
  the exact set of trim plans it lets through.
*/
module TrimPlans {
  import opened Core
  import opened Obus

  function AtStart(t: Option<Trimming>): u32 {
    if t.Some? then t.value.atStart else 0
  }

  function AtEnd(t: Option<Trimming>): u32 {
    if t.Some? then t.value.atEnd else 0
  }

  // ------------------------------------------------------------------ the automaton

  /** `open`: every unit so far was fully trimmed at its start; `total`: the start trims, for Opus only. */
  datatype TrimState = TrimState(open: bool, ended: bool, total: u32)

  const INITIAL: TrimState := TrimState(true, false, 0)

  /** `validate_temporal_trimming`; a sum too large for a `u32` does not fit either. */
  function CheckFits(t: Option<Trimming>, frameSize: u32): Result<()> {
    if t.Some? && t.value.atStart + t.value.atEnd > frameSize then Err(TemporalUnitTrimMismatch) else Ok(())
  }

  /** The Opus pre-skip total after a unit, while the start-trim run was still open before it. */
  function StepTotal(preSkip: u16, total: u32, atStart: u32, stillOpen: bool): Result<u32> {
    if total + atStart > preSkip then Err(OpusStartTrimExceedsPreSkip)
    else if !stillOpen && total + atStart != preSkip then Err(OpusStartTrimShortOfPreSkip)
    else Ok(total + atStart)
  }

  /** The cross-unit rules, judged against the last accepted unit. */
  function StepTrim(frameSize: Option<u32>, preSkip: Option<u16>, s: TrimState,
                    t: Option<Trimming>): Result<TrimState> {
    if s.ended then Err(TemporalUnitAfterEndTrim)
    else if AtStart(t) > 0 && !s.open then Err(StartTrimAfterUntrimmedAudio)
    else
      var open := s.open && Some(AtStart(t)) == frameSize;
      var total :- if preSkip.Some? && s.open then StepTotal(preSkip.value, s.total, AtStart(t), open) else Ok(s.total);
      Ok(TrimState(open, AtEnd(t) > 0, total))
  }

  /** What `finish` still asks of an Opus stream whose start-trim run never closed. */
  function CheckFinish(preSkip: Option<u16>, s: TrimState): Result<()> {
    if preSkip.Some? && s.open && s.total != preSkip.value then Err(OpusStartTrimShortOfPreSkip) else Ok(())
  }

  /** The units in turn, each checked against the frame and then against the ones before. */
  function RunTrims(frameSize: u32, preSkip: Option<u16>, plan: seq<Option<Trimming>>): Result<TrimState> {
    if plan == [] then Ok(INITIAL)
    else
      var s :- RunTrims(frameSize, preSkip, plan[..|plan| - 1]);
      var t := plan[|plan| - 1];
      var _ :- CheckFits(t, frameSize);
      StepTrim(Some(frameSize), preSkip, s, t)
  }

  function Judge(frameSize: u32, preSkip: Option<u16>, plan: seq<Option<Trimming>>): Result<()> {
    var s :- RunTrims(frameSize, preSkip, plan);
    CheckFinish(preSkip, s)
  }

  // ------------------------------------------------------------- what it lets through

  function StartSum(plan: seq<Option<Trimming>>): nat {
    if plan == [] then 0 else StartSum(plan[..|plan| - 1]) + AtStart(plan[|plan| - 1])
  }

  predicate EachFits(frameSize: u32, plan: seq<Option<Trimming>>) {
    forall i | 0 <= i < |plan| :: AtStart(plan[i]) + AtEnd(plan[i]) <= frameSize
  }

  /** A start trim follows only units trimmed away whole. */
  predicate StartsLead(frameSize: u32, plan: seq<Option<Trimming>>) {
    forall i, j | 0 <= j < i < |plan| :: AtStart(plan[i]) > 0 ==> AtStart(plan[j]) == frameSize
  }

  predicate OnlyLastEnds(plan: seq<Option<Trimming>>) {
    forall i | 0 <= i < |plan| - 1 :: AtEnd(plan[i]) == 0
  }

  predicate AllTrimmedAway(frameSize: u32, plan: seq<Option<Trimming>>) {
    forall i | 0 <= i < |plan| :: AtStart(plan[i]) == frameSize
  }

  /** The trim plans of the format, stated without any state. */
  predicate Allowed(frameSize: u32, preSkip: Option<u16>, plan: seq<Option<Trimming>>) {
    && EachFits(frameSize, plan) && StartsLead(frameSize, plan) && OnlyLastEnds(plan)
    && (preSkip.Some? ==> StartSum(plan) == preSkip.value)
  }

  /** The same for a stream that may go on: an Opus run that is still open may be short. */
  predicate AllowedSoFar(frameSize: u32, preSkip: Option<u16>, plan: seq<Option<Trimming>>) {
    && EachFits(frameSize, plan) && StartsLead(frameSize, plan) && OnlyLastEnds(plan)
    && (preSkip.Some? ==>
          && StartSum(plan) <= preSkip.value
          && (!AllTrimmedAway(frameSize, plan) ==> StartSum(plan) == preSkip.value))
  }

  lemma FitsSnoc(frameSize: u32, plan: seq<Option<Trimming>>)
    requires plan != []
    ensures var init, t := plan[..|plan| - 1], plan[|plan| - 1];
            && (EachFits(frameSize, plan) <==> EachFits(frameSize, init) && AtStart(t) + AtEnd(t) <= frameSize)
            && (OnlyLastEnds(plan) <==> OnlyLastEnds(init) && (init != [] ==> AtEnd(init[|init| - 1]) == 0))
            && (AllTrimmedAway(frameSize, plan) <==> AllTrimmedAway(frameSize, init) && AtStart(t) == frameSize)
  {
    var init := plan[..|plan| - 1];
    forall i | 0 <= i < |init| ensures plan[i] == init[i] {
    }
    if OnlyLastEnds(init) && (init != [] ==> AtEnd(init[|init| - 1]) == 0) {
      forall i | 0 <= i < |plan| - 1 ensures AtEnd(plan[i]) == 0 {
        if i < |init| - 1 {
          assert AtEnd(init[i]) == 0;
        }
      }
    }
    if EachFits(frameSize, init) && AtStart(plan[|plan| - 1]) + AtEnd(plan[|plan| - 1]) <= frameSize {
      forall i | 0 <= i < |plan| ensures AtStart(plan[i]) + AtEnd(plan[i]) <= frameSize {
        if i < |init| {
          assert AtStart(init[i]) + AtEnd(init[i]) <= frameSize;
        }
      }
    }
    if AllTrimmedAway(frameSize, init) && AtStart(plan[|plan| - 1]) == frameSize {
      forall i | 0 <= i < |plan| ensures AtStart(plan[i]) == frameSize {
        if i < |init| {
          assert AtStart(init[i]) == frameSize;
        }
      }
    }
  }

  lemma LeadSnoc(frameSize: u32, plan: seq<Option<Trimming>>)
    requires plan != []
    ensures var init, t := plan[..|plan| - 1], plan[|plan| - 1];
            StartsLead(frameSize, plan) <==>
            StartsLead(frameSize, init) && (AtStart(t) > 0 ==> AllTrimmedAway(frameSize, init))
  {
    var init, t := plan[..|plan| - 1], plan[|plan| - 1];
    if StartsLead(frameSize, init) && (AtStart(t) > 0 ==> AllTrimmedAway(frameSize, init)) {
      forall i, j | 0 <= j < i < |plan| && AtStart(plan[i]) > 0 ensures AtStart(plan[j]) == frameSize {
        assert plan[j] == init[j];
        if i < |init| {
          assert plan[i] == init[i];
        }
      }
    }
    if StartsLead(frameSize, plan) {
      forall i, j | 0 <= j < i < |init| && AtStart(init[i]) > 0 ensures AtStart(init[j]) == frameSize {
        assert plan[i] == init[i] && plan[j] == init[j];
      }
    }
  }

  /** What the state remembers, and which plans reach one. */
  lemma {:induction false} RunIsAllowed(frameSize: u32, preSkip: Option<u16>, plan: seq<Option<Trimming>>)
    requires frameSize > 0
    ensures RunTrims(frameSize, preSkip, plan).Ok? <==> AllowedSoFar(frameSize, preSkip, plan)
    ensures RunTrims(frameSize, preSkip, plan).Ok? ==>
              var s := RunTrims(frameSize, preSkip, plan).value;
              && s.open == AllTrimmedAway(frameSize, plan)
              && s.ended == (plan != [] && AtEnd(plan[|plan| - 1]) > 0)
              && s.total == if preSkip.Some? then StartSum(plan) else 0
  {
    if plan != [] {
      hide EachFits, StartsLead, OnlyLastEnds, AllTrimmedAway;
      RunIsAllowed(frameSize, preSkip, plan[..|plan| - 1]);
      FitsSnoc(frameSize, plan);
      LeadSnoc(frameSize, plan);
    }
  }

  /**
    The automaton and the final check let through exactly the plans of the format: each unit's trims fit its
    frame, a start trim follows only units trimmed away whole, only the last unit has an end trim, and for
    Opus the start trims add up to exactly the pre-skip.
  */
  lemma JudgesExactly(frameSize: u32, preSkip: Option<u16>, plan: seq<Option<Trimming>>)
    requires frameSize > 0
    ensures Judge(frameSize, preSkip, plan).Ok? <==> Allowed(frameSize, preSkip, plan)
  {
    hide EachFits, StartsLead, OnlyLastEnds, AllTrimmedAway;
    RunIsAllowed(frameSize, preSkip, plan);
  }

  // ---------------------------------------------------------------- the frame planner

  datatype FramePlan = FramePlan(frameCount: u64, samplesPerFrame: u32, trimAtEnd: u32)

  /** `ceil(total / perFrame)` frames, the surplus trimmed from the last. */
  function PlanFrames(total: u64, perFrame: u32): Result<FramePlan> {
    if perFrame == 0 then Err(ZeroSamplesPerFrame)
    else
      Division(total, perFrame);
      var count := total / perFrame + if total % perFrame == 0 then 0 else 1;
      if count >= U64_LIMIT || count * perFrame >= U64_LIMIT then Err(FramePlanOverflow)
      else Ok(FramePlan(count, perFrame, count * perFrame - total))
  }

  lemma Division(total: nat, perFrame: nat)
    requires perFrame > 0
    ensures total / perFrame * perFrame + total % perFrame == total && total % perFrame < perFrame
    ensures (total / perFrame + 1) * perFrame == total / perFrame * perFrame + perFrame
  {
  }

  /** `trimming_for`. */
  function TrimmingFor(plan: FramePlan, index: nat): Option<Trimming> {
    if index + 1 == plan.frameCount && plan.trimAtEnd > 0 then Some(Trimming(plan.trimAtEnd, 0)) else None
  }

  function PlannedTrims(plan: FramePlan): (trims: seq<Option<Trimming>>)
    ensures |trims| == plan.frameCount
  {
    seq(plan.frameCount, (i: nat) => TrimmingFor(plan, i))
  }

  /** The samples a decoder keeps. */
  function Retained(frameSize: nat, trims: seq<Option<Trimming>>): int {
    if trims == [] then 0
    else
      var t := trims[|trims| - 1];
      Retained(frameSize, trims[..|trims| - 1]) + frameSize - AtStart(t) - AtEnd(t)
  }

  lemma {:induction false} Untrimmed(frameSize: nat, trims: seq<Option<Trimming>>)
    requires forall i | 0 <= i < |trims| :: trims[i] == None
    ensures Retained(frameSize, trims) == |trims| * frameSize
  {
    if trims != [] {
      Untrimmed(frameSize, trims[..|trims| - 1]);
      assert |trims| * frameSize == (|trims| - 1) * frameSize + frameSize;
    }
  }

  /**
    A plan covers the samples exactly, with no whole frame to spare; it fails only for a zero frame size or a
    capacity beyond 64 bits; and for a codec without pre-skip the trims it prescribes are accepted by the
    automaton and keep exactly the samples asked for.
  */
  lemma PlansConserve(total: u64, perFrame: u32)
    ensures PlanFrames(total, perFrame).Err? <==>
            perFrame == 0 || (total / perFrame + if total % perFrame == 0 then 0 else 1) * perFrame >= U64_LIMIT
    ensures PlanFrames(total, perFrame).Ok? ==>
              var plan := PlanFrames(total, perFrame).value;
              && plan.frameCount * perFrame == total + plan.trimAtEnd && plan.trimAtEnd < perFrame
              && Judge(perFrame, None, PlannedTrims(plan)) == Ok(())
              && Retained(perFrame, PlannedTrims(plan)) == total
  {
    if perFrame > 0 {
      Division(total, perFrame);
      var count := total / perFrame + if total % perFrame == 0 then 0 else 1;
      AtLeast(count, perFrame);
      if PlanFrames(total, perFrame).Ok? {
        PlannedAccepted(total, PlanFrames(total, perFrame).value);
      }
    }
  }

  lemma AtLeast(count: nat, perFrame: nat)
    requires perFrame > 0
    ensures count <= count * perFrame
  {
    assert count * perFrame == count + count * (perFrame - 1);
    assert count * (perFrame - 1) >= 0;
  }

  lemma PlannedAccepted(total: nat, plan: FramePlan)
    requires plan.frameCount * plan.samplesPerFrame == total + plan.trimAtEnd
    requires plan.trimAtEnd < plan.samplesPerFrame
    ensures Judge(plan.samplesPerFrame, None, PlannedTrims(plan)) == Ok(())
    ensures Retained(plan.samplesPerFrame, PlannedTrims(plan)) == total
  {
    var trims, n := PlannedTrims(plan), plan.samplesPerFrame;
    JudgesExactly(n, None, trims);
    if trims != [] {
      var init := trims[..|trims| - 1];
      Untrimmed(n, init);
      assert |trims| * n == (|trims| - 1) * n + n;
    }
  }
}
