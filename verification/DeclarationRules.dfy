/** Which declarations build: for every set of them, exactly those that follow these rules. */
module DeclarationRules {
  import opened Core
  import opened ParameterBlocks
  import opened AudioElements
  import opened MixPresentations
  import opened SequenceObus
  import opened Sequences
  import opened Sorting
  import opened Parts
  import opened Streams
  import opened Profiles
  import opened Findings
  import opened Declarations
  import opened Builds
  import opened BuildRules

  // ------------------------------------------------------------------------ elements

  /** Wherever substream `k` of `e` is used, it is with the same codec and for as many channels. */
  predicate UsedAlike(d: Declared, e: ElementDeclaration, k: nat)
    requires k < |e.substreams|
  {
    forall x, j | 0 <= x < |d.audioElements| && 0 <= j < |d.audioElements[x].substreams| ::
      d.audioElements[x].substreams[j] == e.substreams[k] ==>
        && d.audioElements[x].codecConfig == e.codecConfig
        && Carried(d.audioElements[x].element, j) == Carried(e.element, k)
  }

  predicate SubstreamsTaken(d: Declared, e: ElementDeclaration) {
    && (forall k | 0 <= k < |e.substreams| ::
          && e.substreams[k].generation == d.generation && e.substreams[k].index < |d.substreams|
          && UsedAlike(d, e, k))
    && forall j, k | 0 <= j < k < |e.substreams| :: e.substreams[j] != e.substreams[k]
  }

  /** Nothing reserved, no parameter, and as many substreams as ids. */
  predicate BareElement(e: AudioElement) {
    && e.reserved == 0 && e.params == [] && e.audioSubstreamIds != []
    && (e.elementType.ChannelBased? ==>
          && e.elementType.reserved == 0 && e.elementType.layers != []
          && var layer := e.elementType.layers[0];
             && layer.reserved == 0 && (layer.outputGain.Some? ==> layer.outputGain.value.reserved == 0)
             && layer.substreamCount == |e.audioSubstreamIds|)
  }

  predicate ElementTaken(d: Declared, e: ElementDeclaration) {
    && e.codecConfig.generation == d.generation && e.codecConfig.index < |d.codecConfigs|
    && TopologyRules(e.element) && BareElement(e.element)
    && |e.substreams| == |e.element.audioSubstreamIds| && SubstreamsTaken(d, e)
  }

  lemma AlikeIs(d: Declared, e: ElementDeclaration, k: nat)
    requires k < |e.substreams|
    ensures UsedAlike(d, e, k) <==> SharedAlike(d, e, k)
  {
    hide Carried, SubstreamChannels;
    CarriedIs(e.element, k);
    forall x, j: nat | 0 <= x < |d.audioElements|
      ensures Carried(d.audioElements[x].element, j) == SubstreamChannels(d.audioElements[x].element, j)
    {
      CarriedIs(d.audioElements[x].element, j);
    }
  }

  lemma {:induction false} SubstreamsChecked(d: Declared, e: ElementDeclaration, position: nat)
    requires position <= |e.substreams|
    ensures CheckSubstreams(d, e, position).Ok? <==>
            && (forall k | position <= k < |e.substreams| ::
                  && e.substreams[k].generation == d.generation && e.substreams[k].index < |d.substreams|
                  && UsedAlike(d, e, k))
            && forall j, k | 0 <= j < k && position <= k < |e.substreams| :: e.substreams[j] != e.substreams[k]
    decreases |e.substreams| - position
  {
    hide UsedAlike, SharedAlike;
    if position < |e.substreams| {
      SubstreamsChecked(d, e, position + 1);
      AlikeIs(d, e, position);
      assert e.substreams[position] in e.substreams[..position] <==>
             exists j | 0 <= j < position :: e.substreams[..position][j] == e.substreams[position];
      assert forall j | 0 <= j < position :: e.substreams[..position][j] == e.substreams[j];
    }
  }

  lemma BareIs(e: AudioElement)
    requires TopologyRules(e) && e.params == []
    ensures ElementClean(e) <==> BareElement(e)
  {
    hide Row;
    if e.elementType.ChannelBased? {
      var layers := e.elementType.layers;
      assert layers[1..] == [];
      assert DeclaredSubstreamCount(layers) == layers[0].substreamCount + DeclaredSubstreamCount([]);
    }
  }

  /** The checks of one element, exactly, where it has no parameter of its own. */
  lemma ElementChecked(d: Declared, e: ElementDeclaration)
    ensures CheckElement(d, e).Ok? && e.element.params == [] <==> ElementTaken(d, e)
  {
    hide CheckTopology, TopologyRules, ElementClean, CheckSubstreams, UsedAlike;
    TopologyChecked(e.element);
    SubstreamsChecked(d, e, 0);
    if TopologyRules(e.element) && e.element.params == [] {
      BareIs(e.element);
    }
  }

  // ------------------------------------------------------------------- presentations

  ghost predicate MixTaken(d: Declared, m: MixDeclaration) {
    var v := m.presentation;
    && LanguageRules(v.annotationsLanguage) && |v.presentationAnnotations| == |v.annotationsLanguage|
    && |v.subMixes| == 1 && SubMixRules(v.subMixes[0], |v.annotationsLanguage|)
    && |m.audioElements| == |v.subMixes[0].elements|
    && (forall k | 0 <= k < |m.audioElements| ::
          && m.audioElements[k].generation == d.generation && m.audioElements[k].index < |d.audioElements|
          && m.audioElements[k].index < 0x1_0000_0000)
    && forall j, k | 0 <= j < k < |m.audioElements| :: m.audioElements[j] != m.audioElements[k]
  }

  /** Every handle of the presentation is one of this builder's, for as many references as there are. */
  predicate ReferencesTaken(d: Declared, m: MixDeclaration) {
    && |m.audioElements| == References(m.presentation.subMixes)
    && forall k | 0 <= k < |m.audioElements| ::
         && m.audioElements[k].generation == d.generation && m.audioElements[k].index < |d.audioElements|
  }

  lemma ReferencesChecked(d: Declared, m: MixDeclaration)
    ensures CheckReferences(d, m).Ok? <==> ReferencesTaken(d, m)
  {
    hide References;
  }

  lemma OneReference(s: SubMix, ids: seq<u32>)
    requires |ids| == |s.elements|
    ensures References([s]) == |s.elements|
    ensures SetReferences([s], ids) == [s.(elements := Renamed(s.elements, ids))]
  {
    assert [s][1..] == [] && ids[..|ids|] == ids;
    assert References([]) == 0;
  }

  /** Renaming elements changes nothing that the rules look at. */
  lemma RenamedSubMix(s: SubMix, ids: seq<u32>, count: nat)
    requires |ids| == |s.elements|
    ensures SubMixRules(s.(elements := Renamed(s.elements, ids)), count) <==> SubMixRules(s, count)
    ensures Distinct(ReferencedIds([s.(elements := Renamed(s.elements, ids))])) <==> Distinct(ids)
  {
    hide LayoutRule, IsStereo, ReferencedIds;
    var t := s.(elements := Renamed(s.elements, ids));
    SoleSubMix(t);
    assert forall i | 0 <= i < |ids| :: t.elements[i] == s.elements[i].(audioElementId := ids[i]);
  }

  /** The tests that `CheckMix` makes before the general ones say nothing new. */
  lemma EarlyTests(s: SubMix, count: nat)
    requires SubMixRules(s, count)
    ensures forall k | 0 <= k < |s.elements| :: !s.elements[k].rendering.mode.ReservedHeadphones?
    ensures forall k | 0 <= k < |s.layouts| :: !RepeatsAnchor(s.layouts[k])
  {
    forall k | 0 <= k < |s.layouts| ensures !RepeatsAnchor(s.layouts[k]) {
      assert LayoutRule(s.layouts[k]);
    }
  }

  lemma LayoutsPass(s: SubMix)
    ensures CheckAll(s.layouts, CheckLayout).Ok? <==> forall l | l in s.layouts :: CheckLayout(l).Ok?
  {
    hide CheckLayout;
    if CheckAll(s.layouts, CheckLayout).Ok? {
      forall l | l in s.layouts ensures CheckLayout(l).Ok? {
        var i :| 0 <= i < |s.layouts| && s.layouts[i] == l;
        assert CheckLayout(s.layouts[i]).Ok?;
      }
    }
    if forall l | l in s.layouts :: CheckLayout(l).Ok? {
      assert forall i | 0 <= i < |s.layouts| :: s.layouts[i] in s.layouts;
    }
  }

  lemma HandlesAsIds(handles: seq<AudioElementHandle>, generation: u64)
    requires forall k | 0 <= k < |handles| :: handles[k].generation == generation && handles[k].index < U32_LIMIT
    ensures forall h | h in handles :: h.index < U32_LIMIT
    ensures Distinct(ElementIds(handles)) <==> Distinct(handles)
  {
    assert forall k | 0 <= k < |handles| :: handles[k] in handles;
    var ids := ElementIds(handles);
    assert forall j, k | 0 <= j < k < |handles| :: ids[j] == ids[k] <==> handles[j] == handles[k];
  }

  /** What `CheckMix` comes to once the handles resolve and there is one sub-mix. */
  lemma SingleMix(d: Declared, m: MixDeclaration)
    requires |m.presentation.subMixes| == 1 && ReferencesTaken(d, m)
    requires forall k | 0 <= k < |m.audioElements| :: m.audioElements[k].index < U32_LIMIT
    ensures CheckMix(d, m).Ok? <==>
            var v := m.presentation;
            && LanguageRules(v.annotationsLanguage) && |v.presentationAnnotations| == |v.annotationsLanguage|
            && SubMixRules(v.subMixes[0], |v.annotationsLanguage|) && Distinct(m.audioElements)
  {
    hide LanguagesDistinct, LanguagesWellFormed, LanguageRules, SubMixClean, SubMixRules, CheckLayout, ReferencedIds,
         References, SetReferences, CheckReferences, Distinct, ElementIds, Renamed, RepeatsAnchor, CheckAll;
    var v, s := m.presentation, m.presentation.subMixes[0];
    var count := |v.annotationsLanguage|;
    assert v.subMixes == [s];
    ReferencesChecked(d, m);
    HandlesAsIds(m.audioElements, d.generation);
    var ids := ElementIds(m.audioElements);
    assert References([s]) == |s.elements| by { CountsOne(s); }
    OneReference(s, ids);
    var t := s.(elements := Renamed(s.elements, ids));
    LanguagesChecked(v.annotationsLanguage);
    SubMixChecked(t, count);
    RenamedSubMix(s, ids, count);
    LayoutsPass(s);
    assert [t][0] == t && [s][0] == s;
    if SubMixRules(s, count) {
      EarlyTests(s, count);
    }
  }

  lemma CountsOne(s: SubMix)
    ensures References([s]) == |s.elements|
  {
    assert [s][1..] == [];
    assert References([]) == 0;
  }

  /** The checks of one presentation, exactly. */
  lemma MixChecked(d: Declared, m: MixDeclaration)
    ensures CheckMix(d, m).Ok? <==> MixTaken(d, m)
  {
    hide LanguagesDistinct, LanguagesWellFormed, LanguageRules, MixClean, SubMixRules, CheckLayout, References,
         SetReferences, CheckReferences, ElementIds, AnySubMixElement, AnyLayout, RepeatsAnchor, CheckAll;
    var v := m.presentation;
    ReferencesChecked(d, m);
    if CheckMix(d, m).Ok? {
      assert forall k | 0 <= k < |m.audioElements| :: m.audioElements[k] in m.audioElements;
    }
    if |v.subMixes| == 1 {
      CountsOne(v.subMixes[0]);
      assert v.subMixes == [v.subMixes[0]];
      if ReferencesTaken(d, m) && forall k | 0 <= k < |m.audioElements| :: m.audioElements[k].index < U32_LIMIT {
        SingleMix(d, m);
      }
    }
  }

  // ----------------------------------------------------------------- the whole set

  /** The gains of every presentation are the declared ones of its handles. */
  ghost predicate Resolved(d: Declared) {
    forall k | 0 <= k < |d.mixPresentations| ::
      && ParametersKnown(d, d.mixPresentations[k])
      && MixGains(d.mixPresentations[k].presentation.subMixes) == GainsOf(d, d.mixPresentations[k].parameters)
  }

  predicate UsedSomewhere(d: Declared, index: nat) {
    exists x, j | 0 <= x < |d.audioElements| && 0 <= j < |d.audioElements[x].substreams| ::
      d.audioElements[x].substreams[j].index == index
  }

  /** One codec, and every gain, element and presentation by its rule; labels once each, and nothing unused. */
  ghost predicate Rules(d: Declared) {
    && NoRepeat(d.substreams) && NoRepeat(ImplicitIds(d.parameters))
    && |d.codecConfigs| == 1 && CodecRules(d.codecConfigs[0])
    && (forall k | 0 <= k < |d.parameters| ::
          GainRules(d.parameters[k].gain.definition, Rate(d.codecConfigs[0]), d.codecConfigs[0].numSamplesPerFrame))
    && (forall k | 0 <= k < |d.audioElements| :: ElementTaken(d, d.audioElements[k]))
    && d.mixPresentations != [] && (forall k | 0 <= k < |d.mixPresentations| :: MixTaken(d, d.mixPresentations[k]))
    && forall index: nat | index < |d.substreams| :: UsedSomewhere(d, index)
  }

  predicate OfDeclared(d: Declared, r: Registered) {
    exists k | 0 <= k < |d.parameters| :: r.definition == d.parameters[k].gain.definition
  }

  lemma MixOfDeclared(d: Declared, m: MixDeclaration)
    requires ParametersKnown(d, m) && MixGains(m.presentation.subMixes) == GainsOf(d, m.parameters)
    ensures forall r | r in MixDefinitions(m.presentation.subMixes) :: OfDeclared(d, r)
  {
    hide MixDefinitions, MixGains, GainCount;
    MixDefinitionsAreGains(m.presentation.subMixes);
    var gains := MixGains(m.presentation.subMixes);
    forall r | r in Definitions(gains) ensures OfDeclared(d, r) {
      var i :| 0 <= i < |gains| && Definitions(gains)[i] == r;
      assert m.parameters[i] in m.parameters && KnownParameter(d, m.parameters[i]);
      assert r.definition == d.parameters[m.parameters[i].index].gain.definition;
    }
  }

  lemma {:induction false} MixesOfDeclared(d: Declared, registry: Registry, mixes: seq<MixPresentation>)
    requires forall r | r in registry :: OfDeclared(d, r)
    requires forall k | 0 <= k < |mixes| :: forall r | r in MixDefinitions(mixes[k].subMixes) :: OfDeclared(d, r)
    ensures forall r | r in ObserveMixes(registry, mixes) :: OfDeclared(d, r)
    decreases |mixes|
  {
    hide OfDeclared, MixDefinitions;
    if mixes != [] {
      MixesOfDeclared(d, ObserveMix(registry, mixes[0]), mixes[1..]);
    }
  }

  /** The rehearsal observes declared gains and nothing else. */
  lemma TemplateOfDeclared(d: Declared)
    requires Resolved(d) && forall k | 0 <= k < |d.audioElements| :: d.audioElements[k].element.params == []
    ensures forall r | r in FromDescriptors(Template(d)) :: OfDeclared(d, r)
  {
    hide OfDeclared, MixDefinitions, ParametersKnown, MixGains, GainsOf, Sorted, ObserveMixes, ObserveElements;
    var sorted := SortedElements(Template(d));
    SortedIsStable(Template(d).audioElements, (e: AudioElement) => e.audioElementId, 0);
    forall i | 0 <= i < |sorted| ensures sorted[i].params == [] {
      assert sorted[i] in Template(d).audioElements;
    }
    NoElementParameters([], sorted);
    forall k | 0 <= k < |d.mixPresentations|
      ensures forall r | r in MixDefinitions(Template(d).mixPresentations[k].subMixes) :: OfDeclared(d, r)
    {
      MixOfDeclared(d, d.mixPresentations[k]);
    }
    MixesOfDeclared(d, [], Template(d).mixPresentations);
  }

  lemma UsedIs(d: Declared, index: nat)
    ensures UsedSomewhere(d, index) <==> SubstreamUsed(d, index)
  {
  }

  /** Each part of the validation, but for what the parts are. */
  lemma PartsOfValidation(d: Declared)
    ensures ValidateDeclarations(d).Ok? <==>
            && CheckImplicitIds(d.substreams, []).Ok? && CheckImplicitIds(ImplicitIds(d.parameters), []).Ok?
            && (forall k | 0 <= k < |d.parameters| :: CheckParameter(d.parameters[k]).Ok?)
            && (forall k | 0 <= k < |d.codecConfigs| :: CheckCodec(d.codecConfigs[k]).Ok?)
            && |d.codecConfigs| <= 1 && CheckTimings(d).Ok?
            && (forall k | 0 <= k < |d.audioElements| :: CheckElement(d, d.audioElements[k]).Ok?)
            && (forall k | 0 <= k < |d.mixPresentations| :: CheckMix(d, d.mixPresentations[k]).Ok?)
            && CheckTogether(d).Ok?
  {
    hide CheckImplicitIds, CheckCodec, CheckParameter, CheckTimings, CheckElement, CheckMix, CheckTogether, ImplicitIds;
  }

  lemma TogetherParts(d: Declared)
    ensures CheckTogether(d).Ok? <==>
            && (forall index: nat | index < |d.substreams| :: SubstreamUsed(d, index))
            && (forall k | 0 <= k < |d.audioElements| :: d.audioElements[k].element.params == [])
            && (forall r | r in FromDescriptors(Template(d)) :: CheckDefinition(r.definition).Ok?)
            && WAll([], [], FlatDescriptors(Template(d))).Ok? && d.mixPresentations != []
  {
    hide SubstreamUsed, FromDescriptors, CheckDefinition, FlatDescriptors, WAll, Template;
    var all := FromDescriptors(Template(d));
    if forall i | 0 <= i < |all| :: CheckDefinition(all[i].definition).Ok? {
      forall r | r in all ensures CheckDefinition(r.definition).Ok? {
        var i :| 0 <= i < |all| && all[i] == r;
      }
    }
    assert forall i | 0 <= i < |all| :: all[i] in all;
  }

  /** With one codec, the checks of the gains are their rules. */
  lemma GainsChecked(d: Declared)
    requires |d.codecConfigs| == 1 && CodecRules(d.codecConfigs[0])
    ensures CheckTimings(d).Ok? && (forall k | 0 <= k < |d.parameters| :: CheckParameter(d.parameters[k]).Ok?) <==>
            forall k | 0 <= k < |d.parameters| ::
              GainRules(d.parameters[k].gain.definition, Rate(d.codecConfigs[0]), d.codecConfigs[0].numSamplesPerFrame)
  {
    hide CodecRules, Rate, GainRules, CheckParameter, CheckTiming, OutputSampleRate;
    var c := d.codecConfigs[0];
    RateIs(c);
    RatePositive(c);
    forall k | 0 <= k < |d.parameters|
      ensures CheckParameter(d.parameters[k]).Ok? && CheckTiming(c, Rate(c), d.parameters[k].gain.definition).Ok? <==>
              GainRules(d.parameters[k].gain.definition, Rate(c), c.numSamplesPerFrame)
    {
      GainChecked(c, d.parameters[k]);
    }
  }

  /** A presentation needs an element and an element a codec. */
  lemma CodecDeclared(d: Declared)
    requires d.mixPresentations != [] && MixTaken(d, d.mixPresentations[0])
    requires forall k | 0 <= k < |d.audioElements| :: ElementTaken(d, d.audioElements[k])
    ensures d.codecConfigs != []
  {
    hide LanguageRules, TopologyRules, BareElement, SubstreamsTaken;
    var h := d.mixPresentations[0].audioElements[0];
    assert ElementTaken(d, d.audioElements[h.index]);
  }

  lemma PassesDefinition(d: Declared)
    requires Resolved(d) && forall k | 0 <= k < |d.audioElements| :: d.audioElements[k].element.params == []
    requires forall k | 0 <= k < |d.parameters| :: CheckParameter(d.parameters[k]).Ok?
    ensures forall r | r in FromDescriptors(Template(d)) :: CheckDefinition(r.definition).Ok?
  {
    hide Resolved, CheckDefinition, FromDescriptors, Template;
    TemplateOfDeclared(d);
    forall r | r in FromDescriptors(Template(d)) ensures CheckDefinition(r.definition).Ok? {
      var k :| 0 <= k < |d.parameters| && r.definition == d.parameters[k].gain.definition;
      assert CheckParameter(d.parameters[k]).Ok?;
    }
  }

  /** The validation, exactly: the rules, and a rehearsal that can be written. */
  lemma DeclarationsJudged(d: Declared)
    requires Resolved(d)
    ensures ValidateDeclarations(d).Ok? <==> Rules(d) && WAll([], [], FlatDescriptors(Template(d))).Ok?
  {
    hide Resolved, ValidateDeclarations, CheckImplicitIds, CheckCodec, CheckParameter, CheckTimings, CheckElement,
         CheckMix, CheckTogether, NoRepeat, CodecRules, GainRules, Rate, ElementTaken, MixTaken, UsedSomewhere,
         SubstreamUsed, FromDescriptors, CheckDefinition, FlatDescriptors, WAll, Template, ImplicitIds;
    PartsOfValidation(d);
    TogetherParts(d);
    LabelsChecked(d.substreams, []);
    LabelsChecked(ImplicitIds(d.parameters), []);
    forall k | 0 <= k < |d.codecConfigs|
      ensures CheckCodec(d.codecConfigs[k]).Ok? <==> CodecRules(d.codecConfigs[k])
    {
      CodecChecked(d.codecConfigs[k]);
    }
    forall k | 0 <= k < |d.audioElements|
      ensures CheckElement(d, d.audioElements[k]).Ok? && d.audioElements[k].element.params == [] <==>
              ElementTaken(d, d.audioElements[k])
    {
      ElementChecked(d, d.audioElements[k]);
    }
    forall k | 0 <= k < |d.mixPresentations|
      ensures CheckMix(d, d.mixPresentations[k]).Ok? <==> MixTaken(d, d.mixPresentations[k])
    {
      MixChecked(d, d.mixPresentations[k]);
    }
    forall index: nat | index < |d.substreams| ensures UsedSomewhere(d, index) <==> SubstreamUsed(d, index) {
      UsedIs(d, index);
    }
    if ValidateDeclarations(d).Ok? {
      CodecDeclared(d);
      GainsChecked(d);
    }
    if Rules(d) {
      GainsChecked(d);
      PassesDefinition(d);
    }
  }

  // ---------------------------------------------------------------------- resolving

  lemma {:induction false} TakesExactly(d: Declared, handles: seq<ParameterHandle>, used: seq<ParameterHandle>)
    requires Distinct(used)
    ensures TakeHandles(d, handles, used).Ok? <==>
            (forall h | h in handles :: KnownParameter(d, h)) && Distinct(used + handles)
    decreases |handles|
  {
    hide KnownParameter;
    if handles == [] {
      assert used + handles == used;
    } else {
      var all := used + handles;
      assert used + [handles[0]] + handles[1..] == all;
      assert all[|used|] == handles[0];
      if handles[0] in used {
        var i :| 0 <= i < |used| && used[i] == handles[0];
        assert all[i] == all[|used|];
      } else {
        TakesExactly(d, handles[1..], used + [handles[0]]);
        assert forall h :: h in handles <==> h == handles[0] || h in handles[1..];
      }
    }
  }

  lemma DistinctPrefix(a: seq<ParameterHandle>, b: seq<ParameterHandle>)
    requires Distinct(a + b)
    ensures Distinct(a)
  {
    assert forall i | 0 <= i < |a| :: (a + b)[i] == a[i];
  }

  lemma {:induction false} ResolvesMixes(d: Declared, mixes: seq<MixDeclaration>, used: seq<ParameterHandle>)
    requires Distinct(used)
    ensures ResolveMixes(d, mixes, used).Ok? <==>
            (forall k | 0 <= k < |mixes| :: ParametersKnown(d, mixes[k])) && Distinct(used + AllParameters(mixes))
    ensures ResolveMixes(d, mixes, used).Ok? ==>
              ResolveMixes(d, mixes, used).value.1 == used + AllParameters(mixes)
    decreases |mixes|
  {
    hide KnownParameter, GainCount, Distinct, ResolveMix, TakeHandles;
    if mixes == [] {
      assert used + AllParameters(mixes) == used;
    } else {
      var first, rest := mixes[0].parameters, mixes[1..];
      TakesExactly(d, first, used);
      assert used + first + AllParameters(rest) == used + AllParameters(mixes);
      assert forall k | 0 <= k < |rest| :: rest[k] == mixes[k + 1];
      if Distinct(used + AllParameters(mixes)) {
        DistinctPrefix(used + first, AllParameters(rest));
      }
      if ParametersKnown(d, mixes[0]) && Distinct(used + first) {
        ResolvesMixes(d, rest, used + first);
      }
    }
  }

  /** Resolving succeeds exactly where each gain has a known handle, no handle is used twice, and all are used. */
  lemma ResolvesExactly(d: Declared)
    ensures ResolveReferences(d).Ok? <==>
            && (forall k | 0 <= k < |d.mixPresentations| ::
                  && |d.mixPresentations[k].parameters| == GainCount(d.mixPresentations[k].presentation.subMixes)
                  && forall h | h in d.mixPresentations[k].parameters ::
                       h.generation == d.generation && h.index < |d.parameters|)
            && Distinct(AllParameters(d.mixPresentations)) && |AllParameters(d.mixPresentations)| == |d.parameters|
  {
    hide GainCount, ResolveMixes, Distinct, AllParameters;
    assert Distinct<ParameterHandle>([]) by { NothingTwice(); }
    ResolvesMixes(d, d.mixPresentations, []);
    assert [] + AllParameters(d.mixPresentations) == AllParameters(d.mixPresentations);
  }

  lemma NothingTwice()
    ensures Distinct<ParameterHandle>([])
  {
  }

  // ------------------------------------------------------------------------ building

  /** The ids fit, and some profile holds what is declared. */
  ghost predicate Lowerable(d: Declared) {
    Allocatable(d) && HandlesResolve(d) && SequenceProfile(LowerElements(d), LowerMixes(d)).Ok?
  }

  /**
    The language of the builder. Declarations build if and only if their gains resolve, they follow the rules,
    their rehearsal can be written, their ids fit and some profile holds them.
  */
  lemma BuildsJudged(d: Declared)
    ensures Build(d).Ok? <==>
            && ResolveReferences(d).Ok?
            && var r := ResolveReferences(d).value;
               Rules(r) && WAll([], [], FlatDescriptors(Template(r))).Ok? && Lowerable(r)
  {
    hide ResolveReferences, ValidateDeclarations, HandlesResolve, LowerElements, LowerMixes, ParametersKnown, MixGains,
         GainsOf, AllParameters, Manifest, DescriptorsOf, Rules, Template, FlatDescriptors, WAll, Distinct;
    ResolvedKnows(d);
    if ResolveReferences(d).Ok? {
      var r := ResolveReferences(d).value;
      DeclarationsJudged(r);
      if ValidateDeclarations(r).Ok? {
        ValidatedResolves(r);
      }
    }
  }
}
