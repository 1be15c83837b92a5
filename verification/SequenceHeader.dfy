/** The IA Sequence Header payload. */
module SequenceHeaders {
  import opened Core
  import opened Bits

  const IA_CODE: u32 := 0x6961_6d66
  const PROFILE_COUNT := 3

  datatype IaSequenceHeader = IaSequenceHeader(
    iaCode: u32, primaryProfile: u8, additionalProfile: u8, trailing: seq<u8>)

  /** The six fixed bytes; the one thing refused is an additional profile below the primary one. */
  function WHeaderBody(w: BitSeq, v: IaSequenceHeader): Result<BitSeq> {
    if v.additionalProfile < v.primaryProfile then Err(AdditionalProfileBelowPrimary)
    else
      var w :- WU(w, v.iaCode, 32);
      var w :- WU(w, v.primaryProfile, 8);
      WU(w, v.additionalProfile, 8)
  }

  function RHeaderBody(d: BitSeq, p: nat): Result<(IaSequenceHeader, nat)> {
    var (iaCode, p) :- RU32(d, p, 32);
    var (primary, p) :- RU8(d, p, 8);
    var (additional, p) :- RU8(d, p, 8);
    Ok((IaSequenceHeader(iaCode, primary, additional, []), p))
  }

  lemma StepHeaderBody(w: BitSeq, v: IaSequenceHeader, d: BitSeq) returns (w1: BitSeq)
    requires v.trailing == [] && |w| % 8 == 0 && WHeaderBody(w, v).Ok? && WHeaderBody(w, v).value <= d
    ensures w1 == WHeaderBody(w, v).value && w <= w1 && |w1| % 8 == 0
    ensures RHeaderBody(d, |w|) == Ok((v, |w1|))
  {
    hide WU, RU8, RU32;
    w1 := StepU32(w, v.iaCode, 32, d);
    w1 := StepU8(w1, v.primaryProfile, 8, d);
    w1 := StepU8(w1, v.additionalProfile, 8, d);
  }

  lemma AgainHeaderBody(d: BitSeq, p0: nat, p: nat, w0: BitSeq, w: BitSeq) returns (w1: BitSeq)
    requires Canon(d, p0, p, w0, w) && p % 8 == 0 && RHeaderBody(d, p).Ok?
    ensures var (v, q) := RHeaderBody(d, p).value;
            && v.trailing == [] && q % 8 == 0
            && (v.additionalProfile < v.primaryProfile ==> WHeaderBody(w, v) == Err(AdditionalProfileBelowPrimary))
            && (v.additionalProfile >= v.primaryProfile ==>
                  WHeaderBody(w, v) == Ok(w1) && Canon(d, p0, q, w0, w1) && Tight(q - p, |w1| - |w|, true))
  {
    hide WU, RU8, RU32, Canon;
    w1 := AgainU32(d, p0, p, 32, w0, w);
    w1 := AgainU8(d, p0, p + 32, 8, w0, w1);
    w1 := AgainU8(d, p0, p + 40, 8, w0, w1);
  }
}
