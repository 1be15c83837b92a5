/** The fields every parameter definition begins with. */
module ParamDefinitions {
  import opened Core
  import opened Bits
  import opened Leb128
  import opened Lists

  datatype DurationFields = DurationFields(
    duration: u32, constantSubblockDuration: u32, subblockDurations: seq<u32>)

  datatype ParamDefinition = ParamDefinition(
    parameterId: u32, parameterRate: u32, reserved: u8, durationFields: Option<DurationFields>)
  {
    /** `param_definition_mode`: true when the duration fields are absent. */
    predicate Mode() {
      durationFields.None?
    }
  }

  function WDurationFields(w: BitSeq, fields: DurationFields): (r: Result<BitSeq>) {
    hide WLeb;
    var w := WLeb(WLeb(w, fields.duration), fields.constantSubblockDuration);
    if fields.constantSubblockDuration == 0 then WCounted(w, fields.subblockDurations, WLebItem) else Ok(w)
  }

  function RDurationFields(d: BitSeq, p: nat): Result<(DurationFields, nat)> {
    hide RLeb;
    var (duration, p) :- RLeb(d, p);
    var (constant, p) :- RLeb(d, p);
    if constant == 0 then
      var (durations, p) :- RCounted(d, p, RLeb);
      Ok((DurationFields(duration, constant, durations), p))
    else Ok((DurationFields(duration, constant, []), p))
  }

  function WParamDefinition(w: BitSeq, v: ParamDefinition): Result<BitSeq> {
    hide WLeb;
    if v.durationFields.Some? && v.durationFields.value.constantSubblockDuration != 0
       && v.durationFields.value.subblockDurations != []
    then Err(GatedFieldMismatch)
    else
      var w := WLeb(WLeb(w, v.parameterId), v.parameterRate);
      var w :- WU(WBool(w, v.Mode()), v.reserved, 7);
      if v.durationFields.Some? then WDurationFields(w, v.durationFields.value) else Ok(w)
  }

  function RParamDefinition(d: BitSeq, p: nat): Result<(ParamDefinition, nat)> {
    hide RLeb;
    var (parameterId, p) :- RLeb(d, p);
    var (parameterRate, p) :- RLeb(d, p);
    var (mode, p) :- RBool(d, p);
    var (reserved, p) :- RU8(d, p, 7);
    if mode then Ok((ParamDefinition(parameterId, parameterRate, reserved, None), p))
    else
      var (fields, p) :- RDurationFields(d, p);
      Ok((ParamDefinition(parameterId, parameterRate, reserved, Some(fields)), p))
  }

  predicate DurationsMinimal(d: BitSeq, p: nat) {
    hide RLeb;
    var q := End(RLeb(d, p));
    && LebMinimal(d, p) && LebMinimal(d, q)
    && (RLeb(d, q).Ok? && RLeb(d, q).value.0 == 0 ==> CountedMinimal(d, End(RLeb(d, q)), RLeb, LebMinimal))
  }

  predicate DefinitionMinimal(d: BitSeq, p: nat) {
    hide RLeb;
    var q := End(RLeb(d, p));
    var r := End(RLeb(d, q));
    && LebMinimal(d, p) && LebMinimal(d, q)
    && (RBool(d, r).Ok? && !RBool(d, r).value.0 ==> DurationsMinimal(d, r + 8))
  }

  // ------------------------------------------------------------ properties

  lemma StepDurationFields(w: BitSeq, v: DurationFields, d: BitSeq) returns (w1: BitSeq)
    requires v.constantSubblockDuration == 0 || v.subblockDurations == []
    requires |w| % 8 == 0 && WDurationFields(w, v).Ok? && WDurationFields(w, v).value <= d
    ensures w1 == WDurationFields(w, v).value && w <= w1 && |w1| % 8 == 0
    ensures RDurationFields(d, |w|) == Ok((v, |w1|))
  {
    hide WLeb, RLeb, WCounted, RCounted, ReadsBack;
    forall k | 0 <= k < |v.subblockDurations|
      ensures ReadsBack(WLebItem, RLeb, d, true, v.subblockDurations[k])
    {
      LebReadsBack(d, v.subblockDurations[k]);
    }
    var b := WLeb(WLeb(w, v.duration), v.constantSubblockDuration);
    assert |b| % 8 == 0;
    w1 := if v.constantSubblockDuration == 0 then b else b;
    if v.constantSubblockDuration == 0 {
      w1 := StepCounted(WLebItem, RLeb, d, b, v.subblockDurations);
    }
    var a := StepLeb(w, v.duration, d);
    var _ := StepLeb(a, v.constantSubblockDuration, d);
  }

  /** Write then read, for every definition the writer accepts. */
  lemma StepParamDefinition(w: BitSeq, v: ParamDefinition, d: BitSeq) returns (w1: BitSeq)
    requires |w| % 8 == 0 && WParamDefinition(w, v).Ok? && WParamDefinition(w, v).value <= d
    ensures w1 == WParamDefinition(w, v).value && w <= w1 && |w1| % 8 == 0 && |w| + 8 <= |w1|
    ensures RParamDefinition(d, |w|) == Ok((v, |w1|))
  {
    hide WLeb, RLeb, WU, RU8, WBool, RBool, WDurationFields, RDurationFields;
    var head := WLeb(WLeb(w, v.parameterId), v.parameterRate);
    var flagged := WU(WBool(head, v.Mode()), v.reserved, 7).value;
    assert |flagged| == |head| + 8 && |flagged| % 8 == 0;
    w1 := flagged;
    if v.durationFields.Some? {
      w1 := StepDurationFields(flagged, v.durationFields.value, d);
    }
    var a := StepLeb(w, v.parameterId, d);
    var b := StepLeb(a, v.parameterRate, d);
    var c := StepBool(b, v.Mode(), d);
    var _ := StepU8(c, v.reserved, 7, d);
  }

  lemma AgainDurationFields(d: BitSeq, p0: nat, p: nat, w0: BitSeq, w: BitSeq) returns (w1: BitSeq)
    requires Canon(d, p0, p, w0, w) && p % 8 == 0 && RDurationFields(d, p).Ok?
    ensures var (v, q) := RDurationFields(d, p).value;
            && (v.constantSubblockDuration == 0 || v.subblockDurations == [])
            && WDurationFields(w, v) == Ok(w1) && Canon(d, p0, q, w0, w1) && q % 8 == 0
            && Tight(q - p, |w1| - |w|, DurationsMinimal(d, p))
  {
    hide WLeb, RLeb, LebMinimal, WCounted, RCounted, CountedMinimal, Canon, Rewrites;
    var a := AgainLeb(d, p0, p, w0, w);
    var q := RLeb(d, p).value.1;
    w1 := AgainLeb(d, p0, q, w0, a);
    var constant, q1 := RLeb(d, q).value.0, RLeb(d, q).value.1;
    assert q % 8 == 0;
    if constant == 0 {
      LebRewrites(d);
      w1 := AgainCounted(WLebItem, RLeb, LebMinimal, d, p0, q1, w0, w1);
    }
  }

  /** Read then write: the definition is accepted by the writer and re-encoded canonically. */
  lemma AgainParamDefinition(d: BitSeq, p0: nat, p: nat, w0: BitSeq, w: BitSeq) returns (w1: BitSeq)
    requires Canon(d, p0, p, w0, w) && p % 8 == 0 && RParamDefinition(d, p).Ok?
    ensures var (v, q) := RParamDefinition(d, p).value;
            && WParamDefinition(w, v) == Ok(w1) && Canon(d, p0, q, w0, w1) && q % 8 == 0
            && Tight(q - p, |w1| - |w|, DefinitionMinimal(d, p))
  {
    hide WLeb, RLeb, LebMinimal, WBool, RBool, WU, RU8, WDurationFields, RDurationFields, DurationsMinimal, Canon;
    var q0 := RLeb(d, p).value.1;
    var q := RLeb(d, q0).value.1;
    assert q0 % 8 == 0;
    assert q % 8 == 0;
    w1 := AgainLeb(d, p0, p, w0, w);
    w1 := AgainLeb(d, p0, q0, w0, w1);
    w1 := AgainBool(d, p0, q, w0, w1);
    w1 := AgainU8(d, p0, q + 1, 7, w0, w1);
    if !RBool(d, q).value.0 {
      w1 := AgainDurationFields(d, p0, q + 8, w0, w1);
    }
  }
}
