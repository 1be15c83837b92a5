/** The rule table of the profiles in numbers, element by element: what each profile may hold. */
module ProfileNumbers {
  import opened Core
  import opened AudioElements
  import opened MixPresentations
  import opened Profiles
  import opened BuildRules

  /** The channels of an element: those of its last layer, or its ambisonics output channels. */
  function ChannelsOf(e: AudioElement): Option<nat> {
    match e.elementType
    case ChannelBased(_, layers) =>
      if layers == [] || Row(layers[|layers| - 1].layout).None? then None
      else Some(Row(layers[|layers| - 1].layout).value.0)
    case SceneBased(MonoMode(n, _, _)) => Some(n)
    case SceneBased(ProjectionMode(n, _, _, _)) => Some(n)
    case _ => None
  }

  lemma ChannelsAre(e: AudioElement)
    ensures Channels(e) == ChannelsOf(e)
  {
    hide Row;
    if e.elementType.ChannelBased? && e.elementType.layers != [] {
      CountsAreTheTables(e.elementType.layers[|e.elementType.layers| - 1].layout);
    }
  }

  /** How many elements there are, how many channels they have in all, and how many are of the special kinds. */
  datatype Tally = Tally(elements: nat, channels: nat, scenes: nat, layered: nat, expanded: nat)

  predicate Allows(p: Profile, t: Tally) {
    match p
    case Simple => t.elements <= 1 && t.channels <= 16 && t.expanded == 0
    case Base => t.elements <= 2 && t.channels <= 18 && t.scenes <= 1 && t.layered <= 1 && t.expanded == 0
    case _ => t.elements <= 28 && t.channels <= 28
  }

  /** The same without a limit on channels of its own below 28, which is how the sequence as a whole is judged. */
  predicate AllowsAsAWhole(p: Profile, t: Tally) {
    && t.elements <= 28 && t.channels <= 28
    && match p
       case Simple => t.elements <= 1 && t.expanded == 0
       case Base => t.elements <= 2 && t.scenes <= 1 && t.layered <= 1 && t.expanded == 0
       case _ => true
  }

  function SumOf(l: seq<AudioElement>): nat {
    if l == [] then 0
    else SumOf(l[..|l| - 1]) + if ChannelsOf(l[|l| - 1]).Some? then ChannelsOf(l[|l| - 1]).value else 0
  }

  lemma {:induction false} SumIs(l: seq<AudioElement>)
    ensures ChannelSum(l) == SumOf(l)
  {
    if l != [] {
      SumIs(l[..|l| - 1]);
      ChannelsAre(l[|l| - 1]);
    }
  }

  ghost function TallyOf(l: seq<AudioElement>): Tally {
    Tally(|l|, SumOf(l), |PositionsWith(l, (e: AudioElement) => e.elementType.SceneBased?)|,
          |PositionsWith(l, (e: AudioElement) => e.elementType.ChannelBased? && |e.elementType.layers| >= 2)|,
          |PositionsWith(l, StartsExpanded)|)
  }

  predicate StartsExpanded(e: AudioElement) {
    e.elementType.ChannelBased? && e.elementType.layers != [] && e.elementType.layers[0].layout.Expanded?
  }

  /** The same over the first element of each id. */
  ghost function TallyOfFirsts(l: seq<AudioElement>): Tally {
    Tally(|Firsts(l)|, FirstsSum(l), |FirstsWith(l, (e: AudioElement) => e.elementType.SceneBased?)|,
          |FirstsWith(l, (e: AudioElement) => e.elementType.ChannelBased? && |e.elementType.layers| >= 2)|,
          |FirstsWith(l, StartsExpanded)|)
  }

  lemma SamePositions(l: seq<AudioElement>, p: AudioElement -> bool, q: AudioElement -> bool)
    requires forall e: AudioElement :: p(e) == q(e)
    ensures PositionsWith(l, p) == PositionsWith(l, q) && FirstsWith(l, p) == FirstsWith(l, q)
  {
  }

  lemma SameKinds(l: seq<AudioElement>)
    ensures TallyOf(l).scenes == |PositionsWith(l, IsScene)| && TallyOf(l).layered == |PositionsWith(l, IsMultiLayer)|
    ensures TallyOf(l).expanded == |PositionsWith(l, IsExpandedFirstLayer)|
    ensures TallyOfFirsts(l).scenes == |FirstsWith(l, IsScene)|
    ensures TallyOfFirsts(l).layered == |FirstsWith(l, IsMultiLayer)|
    ensures TallyOfFirsts(l).expanded == |FirstsWith(l, IsExpandedFirstLayer)|
  {
    SamePositions(l, (e: AudioElement) => e.elementType.SceneBased?, IsScene);
    SamePositions(l, (e: AudioElement) => e.elementType.ChannelBased? && |e.elementType.layers| >= 2, IsMultiLayer);
    SamePositions(l, StartsExpanded, IsExpandedFirstLayer);
  }

  /** One presentation meets a profile exactly when the profile allows the tally of its elements. */
  lemma PresentationInNumbers(p: Profile, l: seq<AudioElement>)
    ensures ReferencesMeet(p, l) <==>
            (forall i | 0 <= i < |l| :: ChannelsOf(l[i]).Some?) && TallyOf(l).elements <= 28 && Allows(p, TallyOf(l))
  {
    hide Channels, ChannelsOf, IsScene, IsMultiLayer, IsExpandedFirstLayer, PositionsWith, SumOf, ChannelSum;
    SumIs(l);
    SameKinds(l);
    forall i | 0 <= i < |l| ensures Channels(l[i]) == ChannelsOf(l[i]) {
      ChannelsAre(l[i]);
    }
  }

  /** And a whole sequence, counting each id once. */
  lemma SequenceInNumbers(p: Profile, l: seq<AudioElement>)
    ensures SequenceMeets(p, l) <==>
            && (forall i: nat | i < |l| && FirstBinding(l, i) :: ChannelsOf(l[i]).Some?)
            && AllowsAsAWhole(p, TallyOfFirsts(l))
  {
    hide Channels, ChannelsOf, IsScene, IsMultiLayer, IsExpandedFirstLayer, FirstsWith, FirstsSum, Firsts, FirstBinding;
    SameKinds(l);
    forall i | 0 <= i < |l| ensures Channels(l[i]) == ChannelsOf(l[i]) {
      ChannelsAre(l[i]);
    }
  }

  // ----------------------------------------------------------------------- findings

  const NAMED: seq<Profile> := [Simple, Base, BaseEnhanced]

  /** What a profile asks of the elements of a sequence, where a total counts only if every element has one. */
  ghost predicate Quiet(p: Profile, l: seq<AudioElement>) {
    var t := TallyOfFirsts(l);
    AllowsAsAWhole(p, if FirstsFixed(l) then t else t.(channels := 0))
  }

  ghost predicate SomeMeets(p: Profile, elements: seq<AudioElement>, presentations: seq<MixPresentation>) {
    exists i | 0 <= i < |presentations| :: PresentationMeets(p, presentations[i], elements)
  }

  lemma {:induction false} SumIsSmall(l: seq<AudioElement>)
    ensures ChannelSum(l) <= 255 * |l|
  {
    if l != [] {
      SumIsSmall(l[..|l| - 1]);
      FewChannels(l[|l| - 1]);
    }
  }

  lemma FewChannels(e: AudioElement)
    ensures ChannelsOrNone(e) <= 255
  {
  }

  lemma {:induction false} TotalError(l: seq<AudioElement>)
    requires ChannelSum(l) < U32_LIMIT && TotalChannelCount(l).Err?
    ensures TotalChannelCount(l) == Err(UnsupportedLayout)
  {
    hide Channels;
    var init := l[..|l| - 1];
    if TotalChannelCount(init).Err? {
      TotalError(init);
    } else {
      TotalIsSum(init);
    }
  }

  /** A total is withheld only where an element has no fixed count. */
  lemma FloorError(l: seq<AudioElement>)
    ensures SequenceFloor(l).Err? ==>
              if |Firsts(l)| > 28 then SequenceFloor(l).error == ElementCountExceedsProfile
              else if FirstsFixed(l) then SequenceFloor(l).error == ChannelCountExceedsProfile && FirstsSum(l) > 28
              else SequenceFloor(l).error == UnsupportedLayout
    ensures SequenceFloor(l).Ok? ==> |Firsts(l)| <= 28 && FirstsFixed(l) && FirstsSum(l) <= 28
  {
    hide UniqueById, TotalChannelCount, ChannelsFixed, FirstsFixed, Firsts, FirstsSum, ChannelSum, SequenceCountFloor;
    UniqueIsFirsts(l, IsScene);
    UniqueSums(l);
    var unique := UniqueById(l);
    TotalIsSum(unique);
    SumIsSmall(unique);
    if |unique| <= 28 && TotalChannelCount(unique).Err? {
      TotalError(unique);
    }
  }

  /** The floor without channels, in numbers. */
  lemma CountFloorInNumbers(p: Profile, l: seq<AudioElement>)
    requires |Firsts(l)| <= 28
    ensures SequenceCountFloor(UniqueById(l)).Rank() <= p.Rank() <==>
            AllowsAsAWhole(p, TallyOfFirsts(l).(channels := 0))
  {
    hide UniqueById, Firsts, FirstsWith, IsScene, IsMultiLayer, IsExpandedFirstLayer, FirstsSum, Count;
    SameKinds(l);
    UniqueIsFirsts(l, IsScene);
    UniqueIsFirsts(l, IsMultiLayer);
    UniqueIsFirsts(l, IsExpandedFirstLayer);
    FewFirsts(l, IsScene);
    FewFirsts(l, IsMultiLayer);
  }

  /**
    A header draws no finding about the sequence exactly when its primary profile is reserved or allows what
    the sequence has, and none about presentations exactly when each profile it names, in so far as it is one of
    the three, has a presentation that meets it; a reserved primary profile silences both.
  */
  lemma FindingsAreExact(
      primary: u8, additional: u8, elements: seq<AudioElement>, presentations: seq<MixPresentation>)
    ensures SequenceLimitFindings(primary, elements) == [] <==> (primary < 3 ==> Quiet(NAMED[primary], elements))
    ensures ComplianceFindings(primary, additional, elements, presentations) == [] <==>
            (primary < 3 ==>
               && SomeMeets(NAMED[primary], elements, presentations)
               && (additional < 3 ==> SomeMeets(NAMED[additional], elements, presentations)))
  {
    hide PresentationMinimumProfile, PresentationMeets, SequenceFloor, SequenceCountFloor, UniqueById, Quiet, SomeMeets,
         CompliesWith, SequenceMeets;
    Complies(Profile.FromWire(primary), elements, presentations);
    Complies(Profile.FromWire(additional), elements, presentations);
    if primary < 3 {
      assert Profile.FromWire(primary) == NAMED[primary] && !NAMED[primary].ReservedProfile?;
      SequenceQuiet(primary, elements);
    }
    if additional < 3 {
      assert Profile.FromWire(additional) == NAMED[additional] && !NAMED[additional].ReservedProfile?;
    }
  }

  lemma Complies(p: Profile, elements: seq<AudioElement>, presentations: seq<MixPresentation>)
    ensures CompliesWith(p, elements, presentations) <==> SomeMeets(p, elements, presentations)
  {
    hide PresentationMinimumProfile, PresentationMeets;
    forall i | 0 <= i < |presentations|
      ensures PresentationMeets(p, presentations[i], elements) <==>
              && PresentationMinimumProfile(presentations[i], elements).Ok?
              && PresentationMinimumProfile(presentations[i], elements).value.Rank() <= p.Rank()
    {
      PresentationFloorIsLeast(presentations[i], elements, p);
    }
  }

  lemma SequenceQuiet(primary: u8, l: seq<AudioElement>)
    requires primary < 3
    ensures SequenceLimitFindings(primary, l) == [] <==> Quiet(NAMED[primary], l)
  {
    hide SequenceCountFloor, UniqueById, SequenceMeets, Firsts, FirstsWith, FirstsSum, FirstsFixed, FirstBinding;
    hide ChannelsOf;
    var p := NAMED[primary];
    assert Profile.FromWire(primary) == p;
    FloorError(l);
    FloorIsCountFloor(l);
    if |Firsts(l)| <= 28 {
      CountFloorInNumbers(p, l);
    }
  }

  lemma FloorIsCountFloor(l: seq<AudioElement>)
    ensures SequenceFloor(l).Ok? ==> SequenceFloor(l).value == SequenceCountFloor(UniqueById(l))
  {
    hide SequenceCountFloor, UniqueById, TotalChannelCount;
  }
}
