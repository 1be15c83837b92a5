/**
  The profile an IA Sequence needs: the limits of the rule table, the selection that works through them tier
  by tier, and the findings for a header whose profiles do not suffice.
*/
module Profiles {
  import opened Core
  import opened AudioElements
  import opened MixPresentations

  datatype Profile = Simple | Base | BaseEnhanced | ReservedProfile(raw: u8)
  {
    static function FromWire(value: u8): Profile {
      match value
      case 0 => Simple
      case 1 => Base
      case 2 => BaseEnhanced
      case _ => ReservedProfile(value)
    }

    function ToWire(): u8 {
      match this
      case Simple => 0
      case Base => 1
      case BaseEnhanced => 2
      case ReservedProfile(raw) => raw
    }

    /** The derived order: variants in declaration order, reserved ones among themselves by value. */
    function Rank(): nat {
      match this
      case Simple => 0
      case Base => 1
      case BaseEnhanced => 2
      case ReservedProfile(raw) => 3 + raw
    }
  }

  const SIMPLE_MAX_AUDIO_ELEMENTS := 1
  const BASE_MAX_AUDIO_ELEMENTS := 2
  const BASE_ENHANCED_MAX_AUDIO_ELEMENTS := 28
  const SIMPLE_MAX_CHANNELS := 16
  const BASE_MAX_CHANNELS := 18
  const BASE_ENHANCED_MAX_CHANNELS := 28

  function Higher(a: Profile, b: Profile): Profile {
    if a.Rank() < b.Rank() then b else a
  }

  // -------------------------------------------------------- facts of one element

  predicate IsScene(e: AudioElement) {
    e.elementType.SceneBased?
  }

  predicate IsMultiLayer(e: AudioElement) {
    e.elementType.ChannelBased? && |e.elementType.layers| > 1
  }

  predicate IsExpandedFirstLayer(e: AudioElement) {
    && e.elementType.ChannelBased? && e.elementType.layers != []
    && e.elementType.layers[0].layout.Expanded?
  }

  /** The channels of the last layer, or the ambisonics output channels; `None` where no count is fixed. */
  function Channels(e: AudioElement): Option<u32> {
    match e.elementType
    case ChannelBased(_, layers) => if layers == [] then None else layers[|layers| - 1].layout.ChannelCount()
    case SceneBased(MonoMode(n, _, _)) => Some(n)
    case SceneBased(ProjectionMode(n, _, _, _)) => Some(n)
    case _ => None
  }

  // ---------------------------------------------------------------- the rule table

  /** No earlier element carries the same id: the elements a sequence counts once. */
  predicate FirstBinding(l: seq<AudioElement>, i: nat)
    requires i < |l|
  {
    forall k | 0 <= k < i :: l[k].audioElementId != l[i].audioElementId
  }

  ghost function Firsts(l: seq<AudioElement>): set<nat> {
    set i: nat | i < |l| && FirstBinding(l, i)
  }

  ghost function FirstsWith(l: seq<AudioElement>, p: AudioElement -> bool): set<nat> {
    set i: nat | i < |l| && FirstBinding(l, i) && p(l[i])
  }

  ghost function PositionsWith(l: seq<AudioElement>, p: AudioElement -> bool): set<nat> {
    set i: nat | i < |l| && p(l[i])
  }

  predicate ChannelsFixed(l: seq<AudioElement>) {
    forall i | 0 <= i < |l| :: Channels(l[i]).Some?
  }

  predicate FirstsFixed(l: seq<AudioElement>) {
    forall i: nat | i < |l| && FirstBinding(l, i) :: Channels(l[i]).Some?
  }

  function ChannelsOrNone(e: AudioElement): nat {
    if Channels(e).Some? then Channels(e).value else 0
  }

  function ChannelSum(l: seq<AudioElement>): nat {
    if l == [] then 0 else ChannelSum(l[..|l| - 1]) + ChannelsOrNone(l[|l| - 1])
  }

  function FirstsSum(l: seq<AudioElement>): nat {
    if l == [] then 0
    else FirstsSum(l[..|l| - 1]) + if FirstBinding(l, |l| - 1) then ChannelsOrNone(l[|l| - 1]) else 0
  }

  /** The limits whose scope is the IA Sequence: unique elements only. */
  ghost predicate SequenceMeets(p: Profile, l: seq<AudioElement>) {
    && FirstsFixed(l)
    && |Firsts(l)| <= BASE_ENHANCED_MAX_AUDIO_ELEMENTS
    && FirstsSum(l) <= BASE_ENHANCED_MAX_CHANNELS                          // R8
    && (p.Simple? || p.Base? ==> FirstsWith(l, IsExpandedFirstLayer) == {})
    && (p.Simple? ==> |Firsts(l)| <= SIMPLE_MAX_AUDIO_ELEMENTS)            // R1
    && (p.Base? ==>
          && |Firsts(l)| <= BASE_MAX_AUDIO_ELEMENTS                        // R3
          && |FirstsWith(l, IsScene)| <= 1                                 // R4
          && |FirstsWith(l, IsMultiLayer)| <= 1)                           // R5
  }

  /** The limits whose scope is one Mix Presentation, over the elements its references resolve to. */
  ghost predicate ReferencesMeet(p: Profile, l: seq<AudioElement>) {
    && ChannelsFixed(l)
    && |l| <= BASE_ENHANCED_MAX_AUDIO_ELEMENTS                             // R7
    && ChannelSum(l) <= BASE_ENHANCED_MAX_CHANNELS
    && (p.Simple? || p.Base? ==> PositionsWith(l, IsExpandedFirstLayer) == {})
    && (p.Simple? ==> |l| <= SIMPLE_MAX_AUDIO_ELEMENTS && ChannelSum(l) <= SIMPLE_MAX_CHANNELS)   // R2
    && (p.Base? ==>
          && |l| <= BASE_MAX_AUDIO_ELEMENTS && ChannelSum(l) <= BASE_MAX_CHANNELS                 // R6
          && |PositionsWith(l, IsScene)| <= 1 && |PositionsWith(l, IsMultiLayer)| <= 1)
  }

  ghost predicate IsFirstWith(elements: seq<AudioElement>, id: u32, e: AudioElement) {
    exists i: nat | i < |elements| :: FirstBinding(elements, i) && elements[i].audioElementId == id && elements[i] == e
  }

  /** Each reference, in order, bound to the first element with its id. */
  ghost predicate Binds(refs: seq<SubMixElement>, elements: seq<AudioElement>, l: seq<AudioElement>) {
    && |l| == |refs|
    && forall k | 0 <= k < |refs| :: IsFirstWith(elements, refs[k].audioElementId, l[k])
  }

  ghost predicate PresentationMeets(p: Profile, m: MixPresentation, elements: seq<AudioElement>) {
    && |m.subMixes| == 1
    && (forall k | 0 <= k < |m.subMixes[0].elements| :: !m.subMixes[0].elements[k].rendering.mode.ReservedHeadphones?)
    && exists l :: Binds(m.subMixes[0].elements, elements, l) && ReferencesMeet(p, l)
  }

  ghost predicate Meets(p: Profile, elements: seq<AudioElement>, presentations: seq<MixPresentation>) {
    && SequenceMeets(p, elements)
    && forall i | 0 <= i < |presentations| :: PresentationMeets(p, presentations[i], elements)
  }

  // -------------------------------------------------------------------- selection

  predicate HasId(l: seq<AudioElement>, id: u32) {
    exists i | 0 <= i < |l| :: l[i].audioElementId == id
  }

  function UniqueById(l: seq<AudioElement>): seq<AudioElement> {
    if l == [] then []
    else
      var unique := UniqueById(l[..|l| - 1]);
      var e := l[|l| - 1];
      if HasId(unique, e.audioElementId) then unique else unique + [e]
  }

  function Count(l: seq<AudioElement>, p: AudioElement -> bool): nat {
    if l == [] then 0 else Count(l[..|l| - 1], p) + if p(l[|l| - 1]) then 1 else 0
  }

  /** A checked `u32` sum, so a total too large to hold is an error rather than a smaller number. */
  function TotalChannelCount(l: seq<AudioElement>): Result<u32> {
    if l == [] then Ok(0)
    else
      var total :- TotalChannelCount(l[..|l| - 1]);
      var e := l[|l| - 1];
      if Channels(e).None? then Err(UnsupportedLayout)
      else if total + Channels(e).value >= U32_LIMIT then Err(ChannelCountExceedsProfile)
      else Ok(total + Channels(e).value)
  }

  predicate BaseCombinationAllowed(l: seq<AudioElement>) {
    Count(l, IsScene) <= 1 && Count(l, IsMultiLayer) <= 1
  }

  function PresentationFloor(l: seq<AudioElement>): Result<Profile> {
    var channels :- TotalChannelCount(l);
    if |l| > BASE_ENHANCED_MAX_AUDIO_ELEMENTS then Err(ElementCountExceedsProfile)
    else if channels > BASE_ENHANCED_MAX_CHANNELS then Err(ChannelCountExceedsProfile)
    else if Count(l, IsExpandedFirstLayer) > 0 then Ok(BaseEnhanced)
    else if |l| <= SIMPLE_MAX_AUDIO_ELEMENTS && channels <= SIMPLE_MAX_CHANNELS then Ok(Simple)
    else if |l| <= BASE_MAX_AUDIO_ELEMENTS && channels <= BASE_MAX_CHANNELS && BaseCombinationAllowed(l) then Ok(Base)
    else Ok(BaseEnhanced)
  }

  function SequenceCountFloor(unique: seq<AudioElement>): Profile {
    if Count(unique, IsExpandedFirstLayer) > 0 then BaseEnhanced
    else if |unique| <= SIMPLE_MAX_AUDIO_ELEMENTS then Simple
    else if |unique| <= BASE_MAX_AUDIO_ELEMENTS && BaseCombinationAllowed(unique) then Base
    else BaseEnhanced
  }

  function SequenceFloor(elements: seq<AudioElement>): Result<Profile> {
    var unique := UniqueById(elements);
    if |unique| > BASE_ENHANCED_MAX_AUDIO_ELEMENTS then Err(ElementCountExceedsProfile)
    else
      var channels :- TotalChannelCount(unique);
      if channels > BASE_ENHANCED_MAX_CHANNELS then Err(ChannelCountExceedsProfile)
      else Ok(SequenceCountFloor(unique))
  }

  function FindElement(elements: seq<AudioElement>, id: u32): Option<AudioElement> {
    if elements == [] then None
    else if elements[0].audioElementId == id then Some(elements[0])
    else FindElement(elements[1..], id)
  }

  function Resolve(refs: seq<SubMixElement>, elements: seq<AudioElement>): (r: Result<seq<AudioElement>>)
    ensures r.Ok? ==> |r.value| == |refs|
  {
    if refs == [] then Ok([])
    else
      var l :- Resolve(refs[..|refs| - 1], elements);
      var e := FindElement(elements, refs[|refs| - 1].audioElementId);
      if e.None? then Err(InvalidDescriptorReference) else Ok(l + [e.value])
  }

  function PresentationMinimumProfile(m: MixPresentation, elements: seq<AudioElement>): Result<Profile> {
    if |m.subMixes| != 1 then Err(SubMixCountNotOne)
    else
      var refs := m.subMixes[0].elements;
      if exists k | 0 <= k < |refs| :: refs[k].rendering.mode.ReservedHeadphones? then
        Err(Error.ReservedHeadphonesRenderingMode)
      else
        var l :- Resolve(refs, elements);
        PresentationFloor(l)
  }

  function SequenceProfile(elements: seq<AudioElement>, presentations: seq<MixPresentation>): Result<Profile> {
    if presentations == [] then SequenceFloor(elements)
    else
      var profile :- SequenceProfile(elements, presentations[..|presentations| - 1]);
      var needed :- PresentationMinimumProfile(presentations[|presentations| - 1], elements);
      Ok(Higher(profile, needed))
  }

  // ------------------------------------------------------------- the loops

  method UniqueElements(elements: seq<AudioElement>) returns (unique: seq<AudioElement>)
    ensures unique == UniqueById(elements)
  {
    unique := [];
    for i := 0 to |elements|
      invariant unique == UniqueById(elements[..i])
    {
      assert elements[..i + 1][..i] == elements[..i];
      if !HasId(unique, elements[i].audioElementId) {
        unique := unique + [elements[i]];
      }
    }
    assert elements[..|elements|] == elements;
  }

  method TotalChannels(elements: seq<AudioElement>) returns (r: Result<u32>)
    ensures r == TotalChannelCount(elements)
  {
    var total: u32 := 0;
    for i := 0 to |elements|
      invariant TotalChannelCount(elements[..i]) == Ok(total)
      invariant forall k | 0 <= k < i :: TotalChannelCount(elements[..k]).Ok?
    {
      assert elements[..i + 1][..i] == elements[..i];
      var channels := Channels(elements[i]);
      if channels.None? || total + channels.value >= U32_LIMIT {
        TotalFailsOnward(elements, i + 1);
        return Err(if channels.None? then UnsupportedLayout else ChannelCountExceedsProfile);
      }
      total := total + channels.value;
    }
    assert elements[..|elements|] == elements;
    return Ok(total);
  }

  lemma {:induction false} TotalFailsOnward(l: seq<AudioElement>, i: nat)
    requires i <= |l| && TotalChannelCount(l[..i]).Err?
    ensures TotalChannelCount(l) == TotalChannelCount(l[..i])
  {
    if i == |l| {
      assert l[..i] == l;
    } else {
      assert l[..|l| - 1][..i] == l[..i];
      TotalFailsOnward(l[..|l| - 1], i);
    }
  }

  /** The sequence-wide floor, raised by each presentation in list order; the pair is always equal. */
  method SelectSequenceProfile(elements: seq<AudioElement>, presentations: seq<MixPresentation>)
    returns (r: Result<(Profile, Profile)>)
    ensures r.Ok? ==> r.value.0 == r.value.1 && SequenceProfile(elements, presentations) == Ok(r.value.0)
    ensures r.Err? ==> SequenceProfile(elements, presentations) == Err(r.error)
  {
    hide SequenceFloor, PresentationMinimumProfile;
    var floor := SequenceFloor(elements);
    if floor.Err? {
      ProfileFailsOnward(elements, presentations, 0);
      return Err(floor.error);
    }
    var profile := floor.value;
    for i := 0 to |presentations|
      invariant SequenceProfile(elements, presentations[..i]) == Ok(profile)
    {
      assert presentations[..i + 1][..i] == presentations[..i];
      var needed := PresentationMinimumProfile(presentations[i], elements);
      if needed.Err? {
        ProfileFailsOnward(elements, presentations, i + 1);
        return Err(needed.error);
      }
      profile := Higher(profile, needed.value);
    }
    assert presentations[..|presentations|] == presentations;
    return Ok((profile, profile));
  }

  lemma {:induction false} ProfileFailsOnward(elements: seq<AudioElement>, presentations: seq<MixPresentation>, i: nat)
    requires i <= |presentations| && SequenceProfile(elements, presentations[..i]).Err?
    ensures SequenceProfile(elements, presentations) == SequenceProfile(elements, presentations[..i])
  {
    hide SequenceFloor, PresentationMinimumProfile;
    if i == |presentations| {
      assert presentations[..i] == presentations;
    } else {
      var init := presentations[..|presentations| - 1];
      assert init[..i] == presentations[..i];
      ProfileFailsOnward(elements, init, i);
    }
  }

  // ---------------------------------------------- the unique list against the indices

  lemma {:induction false} CountIsPositions(l: seq<AudioElement>, p: AudioElement -> bool)
    ensures Count(l, p) == |PositionsWith(l, p)|
  {
    if l != [] {
      var init := l[..|l| - 1];
      CountIsPositions(init, p);
      var n: nat := |l| - 1;
      assert PositionsWith(l, p) == PositionsWith(init, p) + if p(l[n]) then {n} else {};
    }
  }

  /** Keeping the first element of each id keeps one list entry for each first binding. */
  lemma {:induction false} UniqueIsFirsts(l: seq<AudioElement>, p: AudioElement -> bool)
    ensures forall id :: HasId(UniqueById(l), id) <==> HasId(l, id)
    ensures |UniqueById(l)| == |Firsts(l)|
    ensures Count(UniqueById(l), p) == |FirstsWith(l, p)|
  {
    hide HasId, Firsts, FirstsWith, FirstBinding;
    if l == [] {
      NoIds([]);
      NoFirsts(p);
    } else {
      var init, e := l[..|l| - 1], l[|l| - 1];
      UniqueIsFirsts(init, p);
      LastBinding(l);
      FirstsSnoc(l, p);
      SameIdsSnoc(UniqueById(init), l);
      if !HasId(init, e.audioElementId) {
        CountSnoc(UniqueById(init), e, p);
      }
    }
  }

  lemma SameIdsSnoc(unique: seq<AudioElement>, l: seq<AudioElement>)
    requires l != [] && forall id :: HasId(unique, id) <==> HasId(l[..|l| - 1], id)
    ensures forall id :: HasId(unique + [l[|l| - 1]], id) <==> HasId(l, id)
    ensures HasId(unique, l[|l| - 1].audioElementId) ==> forall id :: HasId(unique, id) <==> HasId(l, id)
  {
    hide HasId;
    var init, e := l[..|l| - 1], l[|l| - 1];
    assert init + [e] == l;
    forall id ensures HasId(unique + [e], id) <==> HasId(unique, id) || e.audioElementId == id {
      SnocIds(unique, e, id);
    }
    forall id ensures HasId(l, id) <==> HasId(init, id) || e.audioElementId == id {
      SnocIds(init, e, id);
    }
  }

  lemma NoFirsts(p: AudioElement -> bool)
    ensures Firsts([]) == {} && FirstsWith([], p) == {}
  {
  }

  lemma NoIds(l: seq<AudioElement>)
    requires l == []
    ensures forall id :: !HasId(l, id)
  {
  }

  lemma SnocIds(l: seq<AudioElement>, e: AudioElement, id: u32)
    ensures HasId(l + [e], id) <==> HasId(l, id) || e.audioElementId == id
  {
    if HasId(l, id) {
      var i :| 0 <= i < |l| && l[i].audioElementId == id;
      assert (l + [e])[i].audioElementId == id;
    }
    if e.audioElementId == id {
      assert (l + [e])[|l|].audioElementId == id;
    }
  }

  lemma CountSnoc(l: seq<AudioElement>, e: AudioElement, p: AudioElement -> bool)
    ensures Count(l + [e], p) == Count(l, p) + if p(e) then 1 else 0
  {
    assert (l + [e])[..|l|] == l;
  }

  lemma LastBinding(l: seq<AudioElement>)
    requires l != []
    ensures FirstBinding(l, |l| - 1) <==> !HasId(l[..|l| - 1], l[|l| - 1].audioElementId)
  {
    var init := l[..|l| - 1];
    if !FirstBinding(l, |l| - 1) {
      var k :| 0 <= k < |l| - 1 && l[k].audioElementId == l[|l| - 1].audioElementId;
      assert init[k].audioElementId == l[|l| - 1].audioElementId;
    }
  }

  lemma BindingInPrefix(l: seq<AudioElement>, n: nat, i: nat)
    requires i < n <= |l|
    ensures FirstBinding(l[..n], i) <==> FirstBinding(l, i)
  {
    if FirstBinding(l[..n], i) {
      forall k | 0 <= k < i ensures l[k].audioElementId != l[i].audioElementId {
        assert l[..n][k].audioElementId != l[..n][i].audioElementId;
      }
    }
  }

  lemma FirstsSnoc(l: seq<AudioElement>, p: AudioElement -> bool)
    requires l != []
    ensures |Firsts(l)| == |Firsts(l[..|l| - 1])| + if FirstBinding(l, |l| - 1) then 1 else 0
    ensures |FirstsWith(l, p)| ==
            |FirstsWith(l[..|l| - 1], p)| + if FirstBinding(l, |l| - 1) && p(l[|l| - 1]) then 1 else 0
  {
    hide FirstsWith;
    FirstsWithAll(l);
    FirstsWithAll(l[..|l| - 1]);
    FirstsWithSnoc(l, p);
    FirstsWithSnoc(l, _ => true);
  }

  lemma FirstsWithAll(l: seq<AudioElement>)
    ensures FirstsWith(l, _ => true) == Firsts(l)
  {
    hide FirstBinding;
  }

  lemma FirstsWithSnoc(l: seq<AudioElement>, p: AudioElement -> bool)
    requires l != []
    ensures |FirstsWith(l, p)| ==
            |FirstsWith(l[..|l| - 1], p)| + if FirstBinding(l, |l| - 1) && p(l[|l| - 1]) then 1 else 0
  {
    hide FirstBinding;
    var init, n: nat := l[..|l| - 1], |l| - 1;
    forall i: nat | i < n ensures FirstBinding(init, i) <==> FirstBinding(l, i) {
      BindingInPrefix(l, n, i);
    }
    var last: set<nat> := if FirstBinding(l, n) && p(l[n]) then {n} else {};
    assert FirstsWith(l, p) == FirstsWith(init, p) + last;
    assert n !in FirstsWith(init, p);
  }

  lemma {:induction false} UniqueSums(l: seq<AudioElement>)
    ensures ChannelSum(UniqueById(l)) == FirstsSum(l)
    ensures ChannelsFixed(UniqueById(l)) <==> FirstsFixed(l)
  {
    hide HasId, Channels;
    if l != [] {
      var init, e := l[..|l| - 1], l[|l| - 1];
      UniqueSums(init);
      UniqueIsFirsts(init, IsScene);
      LastBinding(l);
      FixedSnoc(l);
      if !HasId(init, e.audioElementId) {
        assert (UniqueById(init) + [e])[..|UniqueById(init)|] == UniqueById(init);
        AllFixedSnoc(UniqueById(init), e);
      }
    }
  }

  lemma AllFixedSnoc(l: seq<AudioElement>, e: AudioElement)
    ensures ChannelsFixed(l + [e]) <==> ChannelsFixed(l) && Channels(e).Some?
  {
    hide Channels;
    if ChannelsFixed(l + [e]) {
      assert (l + [e])[|l|] == e;
      forall i | 0 <= i < |l| ensures Channels(l[i]).Some? {
        assert (l + [e])[i] == l[i];
      }
    }
  }

  lemma FixedSnoc(l: seq<AudioElement>)
    requires l != []
    ensures FirstsFixed(l) <==>
            FirstsFixed(l[..|l| - 1]) && (FirstBinding(l, |l| - 1) ==> Channels(l[|l| - 1]).Some?)
  {
    hide FirstBinding, Channels;
    var init, n: nat := l[..|l| - 1], |l| - 1;
    forall i: nat | i < n ensures FirstBinding(init, i) <==> FirstBinding(l, i) {
      BindingInPrefix(l, n, i);
    }
    if FirstsFixed(l) {
      forall i: nat | i < |init| && FirstBinding(init, i) ensures Channels(init[i]).Some? {
        assert FirstBinding(l, i) && l[i] == init[i];
      }
    }
    if FirstsFixed(init) && (FirstBinding(l, n) ==> Channels(l[n]).Some?) {
      forall i: nat | i < |l| && FirstBinding(l, i) ensures Channels(l[i]).Some? {
        if i < n {
          assert FirstBinding(init, i) && l[i] == init[i];
        }
      }
    }
  }

  /** The checked total is the sum, and exists exactly when every count is fixed and the sum is a `u32`. */
  lemma {:induction false} TotalIsSum(l: seq<AudioElement>)
    ensures TotalChannelCount(l).Ok? <==> ChannelsFixed(l) && ChannelSum(l) < U32_LIMIT
    ensures TotalChannelCount(l).Ok? ==> TotalChannelCount(l).value == ChannelSum(l)
  {
    hide Channels;
    if l != [] {
      var init, e := l[..|l| - 1], l[|l| - 1];
      assert init + [e] == l;
      TotalIsSum(init);
      AllFixedSnoc(init, e);
    }
  }

  // ------------------------------------------------------------- the least profile

  lemma CardinalityZero(s: set<nat>)
    ensures |s| == 0 <==> s == {}
  {
  }

  lemma SubsetSmaller(a: set<nat>, b: set<nat>)
    requires a <= b
    ensures |a| <= |b|
  {
    if a != {} {
      var x :| x in a;
      SubsetSmaller(a - {x}, b - {x});
    }
  }

  /** A profile's sequence-wide limits are met exactly by the floor and everything above it. */
  lemma SequenceFloorIsLeast(elements: seq<AudioElement>, p: Profile)
    ensures SequenceMeets(p, elements) <==>
            SequenceFloor(elements).Ok? && SequenceFloor(elements).value.Rank() <= p.Rank()
  {
    hide IsScene, IsMultiLayer, IsExpandedFirstLayer, FirstsFixed, ChannelsFixed, TotalChannelCount, ChannelSum,
         FirstsSum, UniqueById, Count, Firsts, FirstsWith;
    UniqueIsFirsts(elements, IsScene);
    UniqueIsFirsts(elements, IsMultiLayer);
    UniqueIsFirsts(elements, IsExpandedFirstLayer);
    UniqueSums(elements);
    TotalIsSum(UniqueById(elements));
    CardinalityZero(FirstsWith(elements, IsExpandedFirstLayer));
    FewFirsts(elements, IsScene);
    FewFirsts(elements, IsMultiLayer);
  }

  lemma FewFirsts(l: seq<AudioElement>, p: AudioElement -> bool)
    ensures |FirstsWith(l, p)| <= |Firsts(l)|
  {
    SubsetSmaller(FirstsWith(l, p), Firsts(l));
  }

  lemma {:induction false} FewPositions(l: seq<AudioElement>, p: AudioElement -> bool)
    ensures |PositionsWith(l, p)| <= |l|
  {
    hide PositionsWith;
    CountIsPositions(l, p);
    CountBounded(l, p);
  }

  lemma {:induction false} CountBounded(l: seq<AudioElement>, p: AudioElement -> bool)
    ensures Count(l, p) <= |l|
  {
    if l != [] {
      CountBounded(l[..|l| - 1], p);
    }
  }

  lemma ReferencesFloorIsLeast(l: seq<AudioElement>, p: Profile)
    ensures ReferencesMeet(p, l) <==> PresentationFloor(l).Ok? && PresentationFloor(l).value.Rank() <= p.Rank()
  {
    hide IsScene, IsMultiLayer, IsExpandedFirstLayer, ChannelsFixed, TotalChannelCount, ChannelSum, Count,
         PositionsWith;
    CountIsPositions(l, IsScene);
    CountIsPositions(l, IsMultiLayer);
    CountIsPositions(l, IsExpandedFirstLayer);
    TotalIsSum(l);
    CardinalityZero(PositionsWith(l, IsExpandedFirstLayer));
    FewPositions(l, IsScene);
    FewPositions(l, IsMultiLayer);
  }

  lemma {:induction false} FindIsFirst(elements: seq<AudioElement>, id: u32)
    ensures FindElement(elements, id).None? <==> !HasId(elements, id)
    ensures FindElement(elements, id).Some? ==>
              exists i: nat | i < |elements| :: FirstBinding(elements, i) && elements[i].audioElementId == id &&
                                               FindElement(elements, id) == Some(elements[i])
  {
    if elements != [] {
      if elements[0].audioElementId == id {
        assert FirstBinding(elements, 0);
      } else {
        var rest := elements[1..];
        FindIsFirst(rest, id);
        if FindElement(rest, id).Some? {
          var i: nat :| i < |rest| && FirstBinding(rest, i) && rest[i].audioElementId == id &&
                        FindElement(rest, id) == Some(rest[i]);
          forall k | 0 <= k < i + 1 ensures elements[k].audioElementId != elements[i + 1].audioElementId {
            if k > 0 {
              assert rest[k - 1].audioElementId != rest[i].audioElementId;
            }
          }
          assert FirstBinding(elements, i + 1);
          assert elements[i + 1] == rest[i];
        }
        if HasId(elements, id) {
          var i :| 0 <= i < |elements| && elements[i].audioElementId == id;
          assert rest[i - 1].audioElementId == id;
        }
      }
    }
  }

  /** Two elements that are both the first with an id are one. */
  lemma FirstIsOne(elements: seq<AudioElement>, i: nat, j: nat)
    requires i < |elements| && j < |elements| && FirstBinding(elements, i) && FirstBinding(elements, j)
    requires elements[i].audioElementId == elements[j].audioElementId
    ensures i == j
  {
  }

  lemma FindFinds(elements: seq<AudioElement>, i: nat)
    requires i < |elements| && FirstBinding(elements, i)
    ensures FindElement(elements, elements[i].audioElementId) == Some(elements[i])
  {
    FindIsFirst(elements, elements[i].audioElementId);
    assert HasId(elements, elements[i].audioElementId);
    var j: nat :| j < |elements| && FirstBinding(elements, j) &&
                  elements[j].audioElementId == elements[i].audioElementId &&
                  FindElement(elements, elements[i].audioElementId) == Some(elements[j]);
    FirstIsOne(elements, i, j);
  }

  lemma FirstIsFound(elements: seq<AudioElement>, id: u32, e: AudioElement)
    ensures IsFirstWith(elements, id, e) <==> FindElement(elements, id) == Some(e)
  {
    hide FirstBinding, FindElement;
    FindIsFirst(elements, id);
    if IsFirstWith(elements, id, e) {
      var i: nat :| i < |elements| && FirstBinding(elements, i) && elements[i].audioElementId == id && elements[i] == e;
      FindFinds(elements, i);
    }
  }

  /** References resolve in exactly one way, or not at all. */
  lemma {:induction false} ResolveBinds(refs: seq<SubMixElement>, elements: seq<AudioElement>, l: seq<AudioElement>)
    ensures Binds(refs, elements, l) <==> Resolve(refs, elements) == Ok(l)
  {
    hide IsFirstWith, FindElement;
    if refs != [] {
      var init, id := refs[..|refs| - 1], refs[|refs| - 1].audioElementId;
      if Binds(refs, elements, l) {
        BindsSnoc(refs, elements, l);
        ResolveBinds(init, elements, l[..|l| - 1]);
        FirstIsFound(elements, id, l[|l| - 1]);
        assert l[..|l| - 1] + [l[|l| - 1]] == l;
      }
      if Resolve(refs, elements) == Ok(l) {
        ResolveBinds(init, elements, l[..|l| - 1]);
        FirstIsFound(elements, id, l[|l| - 1]);
        BindsSnoc(refs, elements, l);
      }
    }
  }

  lemma BindsSnoc(refs: seq<SubMixElement>, elements: seq<AudioElement>, l: seq<AudioElement>)
    requires refs != [] && |l| == |refs|
    ensures Binds(refs, elements, l) <==>
            && Binds(refs[..|refs| - 1], elements, l[..|l| - 1])
            && IsFirstWith(elements, refs[|refs| - 1].audioElementId, l[|l| - 1])
  {
    hide IsFirstWith;
    var init, tail := refs[..|refs| - 1], l[..|l| - 1];
    if Binds(init, elements, tail) && IsFirstWith(elements, refs[|refs| - 1].audioElementId, l[|l| - 1]) {
      forall k | 0 <= k < |refs| ensures IsFirstWith(elements, refs[k].audioElementId, l[k]) {
        if k < |init| {
          assert init[k] == refs[k] && tail[k] == l[k];
        }
      }
    }
    if Binds(refs, elements, l) {
      forall k | 0 <= k < |init| ensures IsFirstWith(elements, init[k].audioElementId, tail[k]) {
        assert init[k] == refs[k] && tail[k] == l[k];
      }
    }
  }

  lemma PresentationFloorIsLeast(m: MixPresentation, elements: seq<AudioElement>, p: Profile)
    ensures PresentationMeets(p, m, elements) <==>
            && PresentationMinimumProfile(m, elements).Ok?
            && PresentationMinimumProfile(m, elements).value.Rank() <= p.Rank()
  {
    hide ReferencesMeet, PresentationFloor, Resolve, Binds;
    if |m.subMixes| == 1 {
      var refs := m.subMixes[0].elements;
      if l :| Binds(refs, elements, l) && ReferencesMeet(p, l) {
        ResolveBinds(refs, elements, l);
        ReferencesFloorIsLeast(l, p);
      }
      if Resolve(refs, elements).Ok? {
        var l := Resolve(refs, elements).value;
        ResolveBinds(refs, elements, l);
        ReferencesFloorIsLeast(l, p);
      }
    }
  }

  /**
    Selection returns the least profile that meets every limit of the table, each over its own scope, and
    fails exactly when no profile does.
  */
  lemma {:induction false} LeastProfile(elements: seq<AudioElement>, presentations: seq<MixPresentation>, p: Profile)
    ensures Meets(p, elements, presentations) <==>
            && SequenceProfile(elements, presentations).Ok?
            && SequenceProfile(elements, presentations).value.Rank() <= p.Rank()
  {
    hide SequenceMeets, PresentationMeets, SequenceFloor, PresentationMinimumProfile;
    if presentations == [] {
      SequenceFloorIsLeast(elements, p);
    } else {
      var n := |presentations| - 1;
      var init := presentations[..n];
      LeastProfile(elements, init, p);
      PresentationFloorIsLeast(presentations[n], elements, p);
      if Meets(p, elements, init) && PresentationMeets(p, presentations[n], elements) {
        forall i | 0 <= i < |presentations| ensures PresentationMeets(p, presentations[i], elements) {
          if i < n {
            assert init[i] == presentations[i];
          }
        }
      }
      if Meets(p, elements, presentations) {
        forall i | 0 <= i < |init| ensures PresentationMeets(p, init[i], elements) {
          assert init[i] == presentations[i];
        }
      }
    }
  }

  lemma SelectionIsNamed(elements: seq<AudioElement>, presentations: seq<MixPresentation>)
    requires SequenceProfile(elements, presentations).Ok?
    ensures !SequenceProfile(elements, presentations).value.ReservedProfile?
  {
    hide SequenceMeets, PresentationMeets, SequenceFloor, PresentationMinimumProfile;
    var p := SequenceProfile(elements, presentations).value;
    LeastProfile(elements, presentations, p);
    EnhancedSuffices(elements, presentations, p);
    LeastProfile(elements, presentations, BaseEnhanced);
  }

  /** No limit is lifted above Base-Enhanced: what it cannot carry, no reserved profile can. */
  lemma EnhancedSuffices(elements: seq<AudioElement>, presentations: seq<MixPresentation>, p: Profile)
    requires Meets(p, elements, presentations)
    ensures Meets(BaseEnhanced, elements, presentations)
  {
    hide FirstsFixed, Firsts, FirstsWith, FirstsSum, Binds, ChannelsFixed, ChannelSum;
    forall i | 0 <= i < |presentations| ensures PresentationMeets(BaseEnhanced, presentations[i], elements) {
      var m := presentations[i];
      assert PresentationMeets(p, m, elements);
      var l :| Binds(m.subMixes[0].elements, elements, l) && ReferencesMeet(p, l);
      assert ReferencesMeet(BaseEnhanced, l);
    }
  }

  // ------------------------------------------------------------- growing a sequence

  lemma FindPrefix(elements: seq<AudioElement>, e: AudioElement, id: u32)
    ensures FindElement(elements, id).Some? ==> FindElement(elements + [e], id) == FindElement(elements, id)
    ensures FindElement(elements, id).None? && e.audioElementId != id ==> FindElement(elements + [e], id).None?
  {
    if elements == [] {
      assert elements + [e] == [e];
      assert FindElement([], id) == None;
    } else {
      FindPrefix(elements[1..], e, id);
      assert (elements + [e])[1..] == elements[1..] + [e];
    }
  }

  lemma {:induction false} ResolvePrefix(refs: seq<SubMixElement>, elements: seq<AudioElement>, e: AudioElement)
    ensures Resolve(refs, elements).Ok? ==> Resolve(refs, elements + [e]) == Resolve(refs, elements)
    ensures HasId(elements, e.audioElementId) ==> Resolve(refs, elements + [e]) == Resolve(refs, elements)
  {
    hide FindElement, HasId;
    if refs != [] {
      var id := refs[|refs| - 1].audioElementId;
      ResolvePrefix(refs[..|refs| - 1], elements, e);
      FindPrefix(elements, e, id);
      FindIsFirst(elements, id);
    }
  }

  lemma UniqueSnoc(elements: seq<AudioElement>, e: AudioElement)
    ensures UniqueById(elements + [e]) ==
            if HasId(elements, e.audioElementId) then UniqueById(elements) else UniqueById(elements) + [e]
  {
    hide HasId;
    assert (elements + [e])[..|elements|] == elements;
    UniqueIsFirsts(elements, IsScene);
  }

  /** Repeating an id, whatever the copy says, changes nothing. */
  lemma {:induction false} RepeatingAnIdChangesNothing(
      elements: seq<AudioElement>, e: AudioElement, presentations: seq<MixPresentation>)
    requires HasId(elements, e.audioElementId)
    ensures SequenceProfile(elements + [e], presentations) == SequenceProfile(elements, presentations)
  {
    hide HasId, UniqueById, PresentationFloor, SequenceCountFloor, Resolve, TotalChannelCount;
    UniqueSnoc(elements, e);
    if presentations != [] {
      var n := |presentations| - 1;
      RepeatingAnIdChangesNothing(elements, e, presentations[..n]);
      var m := presentations[n];
      if |m.subMixes| == 1 {
        ResolvePrefix(m.subMixes[0].elements, elements, e);
      }
    }
  }

  /** Adding an Audio Element at the end never lowers the selected profile. */
  lemma {:induction false} AddingAnElementNeverLowers(
      elements: seq<AudioElement>, e: AudioElement, presentations: seq<MixPresentation>)
    requires SequenceProfile(elements, presentations).Ok? && SequenceProfile(elements + [e], presentations).Ok?
    ensures SequenceProfile(elements, presentations).value.Rank() <=
            SequenceProfile(elements + [e], presentations).value.Rank()
  {
    hide SequenceFloor, PresentationMinimumProfile;
    if presentations == [] {
      AddingRaisesTheFloor(elements, e);
    } else {
      var n := |presentations| - 1;
      AddingAnElementNeverLowers(elements, e, presentations[..n]);
      AddingKeepsAPresentation(presentations[n], elements, e);
    }
  }

  lemma AddingKeepsAPresentation(m: MixPresentation, elements: seq<AudioElement>, e: AudioElement)
    requires PresentationMinimumProfile(m, elements).Ok?
    ensures PresentationMinimumProfile(m, elements + [e]) == PresentationMinimumProfile(m, elements)
  {
    hide Resolve, PresentationFloor;
    ResolvePrefix(m.subMixes[0].elements, elements, e);
  }

  lemma AddingRaisesTheFloor(elements: seq<AudioElement>, e: AudioElement)
    requires SequenceFloor(elements).Ok? && SequenceFloor(elements + [e]).Ok?
    ensures SequenceFloor(elements).value.Rank() <= SequenceFloor(elements + [e]).value.Rank()
  {
    hide HasId, UniqueById, IsScene, IsMultiLayer, IsExpandedFirstLayer, Count, TotalChannelCount;
    UniqueSnoc(elements, e);
    var unique := UniqueById(elements);
    CountSnoc(unique, e, IsScene);
    CountSnoc(unique, e, IsMultiLayer);
    CountSnoc(unique, e, IsExpandedFirstLayer);
  }

  /** Adding a Mix Presentation at the end never lowers the selected profile, and never mends a failure. */
  lemma AddingAPresentationNeverLowers(
      elements: seq<AudioElement>, presentations: seq<MixPresentation>, m: MixPresentation)
    requires SequenceProfile(elements, presentations + [m]).Ok?
    ensures SequenceProfile(elements, presentations).Ok?
    ensures SequenceProfile(elements, presentations).value.Rank() <=
            SequenceProfile(elements, presentations + [m]).value.Rank()
  {
    hide SequenceFloor, PresentationMinimumProfile;
    assert (presentations + [m])[..|presentations|] == presentations;
  }

  // ------------------------------------------------------------------- findings

  datatype ProfileFinding =
    | NoPresentationComplies(field: string)
    | SequenceExceedsEveryProfile
    | SequenceNeeds(profile: Profile)

  predicate CompliesWith(p: Profile, elements: seq<AudioElement>, presentations: seq<MixPresentation>) {
    exists i | 0 <= i < |presentations| ::
      && PresentationMinimumProfile(presentations[i], elements).Ok?
      && PresentationMinimumProfile(presentations[i], elements).value.Rank() <= p.Rank()
  }

  function ComplianceFindings(primary: u8, additional: u8, elements: seq<AudioElement>,
                              presentations: seq<MixPresentation>): seq<ProfileFinding>
  {
    if Profile.FromWire(primary).ReservedProfile? then []
    else
      (if CompliesWith(Profile.FromWire(primary), elements, presentations) then []
       else [NoPresentationComplies("primary_profile")])
      + if additional == primary || Profile.FromWire(additional).ReservedProfile? ||
           CompliesWith(Profile.FromWire(additional), elements, presentations) then []
        else [NoPresentationComplies("additional_profile")]
  }

  function SequenceLimitFindings(primary: u8, elements: seq<AudioElement>): seq<ProfileFinding> {
    if Profile.FromWire(primary).ReservedProfile? then []
    else
      var floor := SequenceFloor(elements);
      if floor.Err? && floor.error != UnsupportedLayout then [SequenceExceedsEveryProfile]
      else
        var needed := if floor.Ok? then floor.value else SequenceCountFloor(UniqueById(elements));
        if needed.Rank() > Profile.FromWire(primary).Rank() then [SequenceNeeds(needed)] else []
  }

  /**
    A header carrying the selected pair never exceeds its own limits, and draws no compliance finding exactly
    when there is a presentation to comply with.
  */
  lemma SelectedPairIsSilent(elements: seq<AudioElement>, presentations: seq<MixPresentation>)
    requires SequenceProfile(elements, presentations).Ok?
    ensures var wire := SequenceProfile(elements, presentations).value.ToWire();
            && (ComplianceFindings(wire, wire, elements, presentations) == [] <==> presentations != [])
            && SequenceLimitFindings(wire, elements) == []
  {
    hide SequenceFloor, PresentationMinimumProfile, PresentationMeets, SequenceMeets, SequenceProfile;
    var p := SequenceProfile(elements, presentations).value;
    SelectionIsNamed(elements, presentations);
    assert Profile.FromWire(p.ToWire()) == p;
    LeastProfile(elements, presentations, p);
    SequenceFloorIsLeast(elements, p);
    assert SequenceMeets(p, elements);
    assert SequenceLimitFindings(p.ToWire(), elements) == [];
    if presentations != [] {
      PresentationFloorIsLeast(presentations[0], elements, p);
      assert PresentationMeets(p, presentations[0], elements);
      assert CompliesWith(p, elements, presentations);
      assert ComplianceFindings(p.ToWire(), p.ToWire(), elements, presentations) == [];
    } else {
      assert !CompliesWith(p, elements, presentations);
    }
  }
}
