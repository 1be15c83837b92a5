/**
  Encoder-facing descriptors and temporal units, how they flatten to wire order, and how a flat sequence
  regroups into temporal units with no markers of its own.
*/
module Parts {
  import opened Core
  import opened Obus
  import opened ParameterBlocks
  import opened SequenceHeaders
  import opened CodecConfigs
  import opened AudioElements
  import opened MixPresentations
  import opened AudioFrames
  import opened SequenceObus
  import opened Sorting

  datatype DescriptorSet = DescriptorSet(
    sequenceHeader: IaSequenceHeader, codecConfigs: seq<CodecConfig>, audioElements: seq<AudioElement>,
    mixPresentations: seq<MixPresentation>)

  datatype TemporalUnit = TemporalUnit(
    hasDelimiter: bool, parameterBlocks: seq<Obu<ParameterBlock>>, audioFrames: seq<Obu<AudioFrame>>)

  // ------------------------------------------------------------- flattening

  function SortedCodecs(set_: DescriptorSet): seq<CodecConfig> {
    Sorted(set_.codecConfigs, (c: CodecConfig) => c.codecConfigId)
  }

  function SortedElements(set_: DescriptorSet): seq<AudioElement> {
    Sorted(set_.audioElements, (e: AudioElement) => e.audioElementId)
  }

  function FlatHeader(v: IaSequenceHeader): SequenceObu {
    IaHeader(Obu(ObuHeader.New(IaSequenceHeaderObu), v.(trailing := []), v.trailing))
  }

  function FlatCodec(v: CodecConfig): SequenceObu {
    Codec(Obu(ObuHeader.New(CodecConfigObu), v.(trailing := []), v.trailing))
  }

  function FlatElement(v: AudioElement): SequenceObu {
    Element(Obu(ObuHeader.New(AudioElementObu), v.(trailing := []), v.trailing))
  }

  function FlatMix(v: MixPresentation): SequenceObu {
    Mix(Obu(ObuHeader.New(MixPresentationObu), v.(trailing := []), v.trailing))
  }

  const DELIMITER: SequenceObu := Delimiter(Obu(ObuHeader.New(TemporalDelimiterObu), (), []))

  function Map<T, U>(f: T -> U, xs: seq<T>): (r: seq<U>)
    ensures |r| == |xs|
    ensures forall i | 0 <= i < |xs| :: r[i] == f(xs[i])
  {
    if xs == [] then [] else [f(xs[0])] + Map(f, xs[1..])
  }

  function FlatBlock(o: Obu<ParameterBlock>): SequenceObu {
    Block(o)
  }

  function FlatFrame(o: Obu<AudioFrame>): SequenceObu {
    Frame(o)
  }

  /** The prologue: header, Codec Configs and Audio Elements ascending by id, Mix Presentations as listed. */
  function FlatDescriptors(set_: DescriptorSet): seq<SequenceObu> {
    [FlatHeader(set_.sequenceHeader)] + Map(FlatCodec, SortedCodecs(set_))
    + Map(FlatElement, SortedElements(set_)) + Map(FlatMix, set_.mixPresentations)
  }

  function FlatUnit(u: TemporalUnit): seq<SequenceObu> {
    (if u.hasDelimiter then [DELIMITER] else []) + Map(FlatBlock, u.parameterBlocks) + Map(FlatFrame, u.audioFrames)
  }

  function FlatUnits(units: seq<TemporalUnit>): seq<SequenceObu> {
    if units == [] then [] else FlatUnit(units[0]) + FlatUnits(units[1..])
  }

  /** `ParsedSequence::from_parts`. */
  function FromParts(set_: DescriptorSet, units: seq<TemporalUnit>): seq<SequenceObu> {
    FlatDescriptors(set_) + FlatUnits(units)
  }

  // ------------------------------------------------------------- regrouping

  predicate IsTemporal(o: SequenceObu) {
    o.Block? || o.Ungoverned? || o.Delimiter? || o.Frame?
  }

  /** What the grouping pass remembers: whether a unit is open, its frame ids so far, whether it has a frame. */
  datatype Grouping = Grouping(open: bool, ids: seq<u32>, sawFrame: bool)

  /** Whether `o` opens a unit when the pass is in state `g`. */
  predicate Boundary(delimited: bool, g: Grouping, o: SequenceObu) {
    if o.Delimiter? then g.open
    else if delimited then false
    else if o.Block? || o.Ungoverned? then g.sawFrame
    else if o.Frame? then o.frame.payload.substreamId in g.ids
    else false
  }

  function Advance(delimited: bool, g: Grouping, o: SequenceObu): Grouping {
    var g := if Boundary(delimited, g, o) then Grouping(true, [], false) else g.(open := g.open || IsTemporal(o));
    if o.Frame? then g.(ids := g.ids + [o.frame.payload.substreamId], sawFrame := true) else g
  }

  predicate Cuts(delimited: bool, g: Grouping, o: SequenceObu) {
    Boundary(delimited, g, o) || (!g.open && IsTemporal(o))
  }

  /** The indices at which units start, the first OBU of `s` being number `base`. */
  function Starts(s: seq<SequenceObu>, base: nat, delimited: bool, g: Grouping): (r: seq<nat>)
    ensures forall k | 0 <= k < |r| :: base <= r[k] < base + |s|
    ensures forall j, k | 0 <= j < k < |r| :: r[j] < r[k]
  {
    if s == [] then []
    else
      (if Cuts(delimited, g, s[0]) then [base] else [])
      + Starts(s[1..], base + 1, delimited, Advance(delimited, g, s[0]))
  }

  predicate UsesDelimiters(s: seq<SequenceObu>) {
    exists o | o in s :: o.Delimiter?
  }

  const NO_UNIT := Grouping(false, [], false)

  function UnitStarts(s: seq<SequenceObu>): seq<nat> {
    Starts(s, 0, UsesDelimiters(s), NO_UNIT)
  }

  /** Consecutive ranges from each start to the next, the last one up to `end`. */
  function RangesOf(starts: seq<nat>, end: nat): (r: seq<(nat, nat)>)
    ensures |r| == |starts|
    ensures forall k | 0 <= k < |r| :: r[k] == (starts[k], if k + 1 < |starts| then starts[k + 1] else end)
  {
    seq(|starts|, k requires 0 <= k < |starts| => (starts[k], if k + 1 < |starts| then starts[k + 1] else end))
  }

  function UnitRanges(s: seq<SequenceObu>): seq<(nat, nat)> {
    RangesOf(UnitStarts(s), |s|)
  }

  lemma StartsCons(s: seq<SequenceObu>, base: nat, delimited: bool, g: Grouping)
    requires s != []
    ensures var rest := Starts(s[1..], base + 1, delimited, Advance(delimited, g, s[0]));
            Starts(s, base, delimited, g) == if Cuts(delimited, g, s[0]) then [base] + rest else rest
  {
    var rest := Starts(s[1..], base + 1, delimited, Advance(delimited, g, s[0]));
    assert [] + rest == rest;
  }

  lemma StartsStep(s: seq<SequenceObu>, index: nat, delimited: bool, g: Grouping, starts: seq<nat>)
    requires index < |s|
    ensures starts + Starts(s[index..], index, delimited, g)
         == (if Cuts(delimited, g, s[index]) then starts + [index] else starts)
            + Starts(s[index + 1..], index + 1, delimited, Advance(delimited, g, s[index]))
  {
    assert s[index..][0] == s[index] && s[index..][1..] == s[index + 1..];
  }

  /** `temporal_unit_ranges`. */
  method TemporalUnitRanges(obus: seq<SequenceObu>) returns (ranges: seq<(nat, nat)>)
    ensures ranges == UnitRanges(obus)
  {
    var delimited := UsesDelimiters(obus);
    ghost var all := UnitStarts(obus);
    NothingGrouped(obus);
    hide Starts, UsesDelimiters, UnitStarts, Closed, RangesOf;
    ranges := [];
    var start: Option<nat> := None;
    var frameIds: seq<u32> := [];
    var sawFrame := false;
    ghost var starts: seq<nat> := [];
    for index := 0 to |obus|
      invariant start.Some? <==> starts != []
      invariant start.Some? ==> start.value == starts[|starts| - 1]
      invariant !sawFrame <==> frameIds == []
      invariant start.None? ==> !sawFrame
      invariant ranges == Closed(starts)
      invariant all == starts + Starts(obus[index..], index, delimited, Grouping(start.Some?, frameIds, sawFrame))
    {
      var o := obus[index];
      ghost var g := Grouping(start.Some?, frameIds, sawFrame);
      ghost var before := starts;
      StartsStep(obus, index, delimited, g, before);
      var boundary := if o.Delimiter? then start.Some?
                      else if delimited then false
                      else if o.Block? || o.Ungoverned? then sawFrame
                      else if o.Frame? then o.frame.payload.substreamId in frameIds
                      else false;
      assert boundary == Boundary(delimited, g, o);
      if boundary {
        if start.Some? {
          ClosedSnoc(starts, index);
          ranges := ranges + [(start.value, index)];
        }
        start, frameIds, sawFrame := Some(index), [], false;
        starts := starts + [index];
      } else if start.None? && IsTemporal(o) {
        start := Some(index);
        starts := starts + [index];
        OneOpen(index);
      }
      if o.Frame? {
        sawFrame := true;
        frameIds := frameIds + [o.frame.payload.substreamId];
      }
      assert Grouping(start.Some?, frameIds, sawFrame) == Advance(delimited, g, o);
      assert starts == if Cuts(delimited, g, o) then before + [index] else before;
      assert all == starts + Starts(obus[index + 1..], index + 1, delimited, Advance(delimited, g, o));
    }
    if start.Some? {
      ranges := ranges + [(start.value, |obus|)];
    }
    NoMoreStarts(obus[|obus|..], |obus|, delimited, Grouping(start.Some?, frameIds, sawFrame), starts);
    ClosedThenLast(starts, |obus|);
  }

  /** The ranges between consecutive starts, without the one still open. */
  ghost function Closed(starts: seq<nat>): (r: seq<(nat, nat)>)
    ensures |starts| > 0 ==> |r| == |starts| - 1
    ensures |starts| > 0 ==> forall k | 0 <= k < |r| :: r[k] == (starts[k], starts[k + 1])
  {
    if starts == [] then [] else seq(|starts| - 1, k requires 0 <= k < |starts| - 1 => (starts[k], starts[k + 1]))
  }

  lemma ClosedSnoc(starts: seq<nat>, index: nat)
    requires starts != []
    ensures Closed(starts + [index]) == Closed(starts) + [(starts[|starts| - 1], index)]
  {
  }

  lemma NothingGrouped(s: seq<SequenceObu>)
    ensures UnitStarts(s) == [] + Starts(s[0..], 0, UsesDelimiters(s), NO_UNIT) && Closed([]) == []
  {
    assert s[0..] == s;
  }

  lemma OneOpen(index: nat)
    ensures Closed([index]) == Closed([]) == []
  {
  }

  lemma NoMoreStarts(s: seq<SequenceObu>, base: nat, delimited: bool, g: Grouping, starts: seq<nat>)
    requires s == []
    ensures starts + Starts(s, base, delimited, g) == starts
  {
  }

  lemma ClosedThenLast(starts: seq<nat>, end: nat)
    ensures RangesOf(starts, end) == if starts == [] then [] else Closed(starts) + [(starts[|starts| - 1], end)]
  {
  }
}
