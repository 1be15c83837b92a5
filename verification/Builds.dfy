/**
  `build`, and what it guarantees: dense unique wire ids that the manifest maps handles to, every reference
  resolved, and a descriptor set with nothing to report.
*/
module Builds {
  import opened Core
  import opened ParameterBlocks
  import opened SequenceHeaders
  import opened CodecConfigs
  import opened AudioElements
  import opened MixPresentations
  import opened SequenceObus
  import opened Sorting
  import opened Parts
  import opened Streams
  import opened Profiles
  import opened Findings
  import opened Declarations

  function DescriptorsOf(d: Declared, profile: Profile): DescriptorSet
    requires Allocatable(d) && HandlesResolve(d)
  {
    DescriptorSet(IaSequenceHeader(IA_CODE, profile.ToWire(), profile.ToWire(), []), LowerCodecs(d.codecConfigs),
                  LowerElements(d), LowerMixes(d))
  }

  /** `build`, after resolving: nothing is lowered before everything is validated. */
  function Freeze(d: Declared): Result<(Encoder, IdManifest)>
    requires forall k | 0 <= k < |d.mixPresentations| :: ParametersKnown(d, d.mixPresentations[k])
  {
    hide HandlesResolve, LowerElements, LowerMixes;
    var _ :- ValidateDeclarations(d);
    if !Allocatable(d) then Err(WireIdAllocationExhausted)
    else
      ValidatedResolves(d);
      var profile :- SequenceProfile(LowerElements(d), LowerMixes(d));
      Ok((Encoder(DescriptorsOf(d, profile), d.generation), Manifest(d, profile)))
  }

  function Build(d: Declared): Result<(Encoder, IdManifest)> {
    hide ResolveReferences, Freeze;
    ResolvedKnows(d);
    var r :- ResolveReferences(d);
    Freeze(r)
  }

  // ------------------------------------------------------------------ resolving

  predicate ParametersKnown(d: Declared, m: MixDeclaration) {
    && |m.parameters| == GainCount(m.presentation.subMixes)
    && forall h | h in m.parameters :: KnownParameter(d, h)
  }

  lemma WithGainsGains(elements: seq<SubMixElement>, gains: seq<MixGainDefinition>)
    requires |gains| == |elements|
    ensures ElementGains(WithGains(elements, gains)) == gains
  {
  }

  /** Setting gains replaces exactly the gains, all of them, in order. */
  lemma {:induction false} SetGainsSets(subMixes: seq<SubMix>, gains: seq<MixGainDefinition>)
    requires |gains| == GainCount(subMixes)
    ensures MixGains(SetGains(subMixes, gains)) == gains && GainCount(SetGains(subMixes, gains)) == |gains|
    ensures References(SetGains(subMixes, gains)) == References(subMixes)
  {
    hide ElementGains, WithGains;
    if subMixes != [] {
      var n := |subMixes[0].elements|;
      var r := SetGains(subMixes, gains);
      SetGainsSets(subMixes[1..], gains[n + 1..]);
      WithGainsGains(subMixes[0].elements, gains[..n]);
      assert r[1..] == SetGains(subMixes[1..], gains[n + 1..]);
      assert gains == gains[..n] + [gains[n]] + gains[n + 1..];
    }
  }

  function AllParameters(mixes: seq<MixDeclaration>): seq<ParameterHandle> {
    if mixes == [] then [] else mixes[0].parameters + AllParameters(mixes[1..])
  }

  lemma {:induction false} TakenOnce(d: Declared, handles: seq<ParameterHandle>, used: seq<ParameterHandle>)
    requires TakeHandles(d, handles, used).Ok? && Distinct(used)
    ensures Distinct(used + handles)
    decreases |handles|
  {
    if handles == [] {
      assert used + handles == used;
    } else {
      TakenOnce(d, handles[1..], used + [handles[0]]);
      assert used + [handles[0]] + handles[1..] == used + handles;
    }
  }

  /** Each presentation resolved against the declared gains. */
  ghost predicate ResolvedAs(d: Declared, mixes: seq<MixDeclaration>, done: seq<MixDeclaration>)
    decreases |mixes|
  {
    && |done| == |mixes|
    && (mixes != [] ==>
          && ParametersKnown(d, mixes[0]) && done[0] == ResolveMix(d, mixes[0])
          && ResolvedAs(d, mixes[1..], done[1..]))
  }

  lemma {:induction false} ResolvedMixes(d: Declared, mixes: seq<MixDeclaration>, used: seq<ParameterHandle>)
    requires ResolveMixes(d, mixes, used).Ok? && Distinct(used)
    ensures var (done, all) := ResolveMixes(d, mixes, used).value;
            && all == used + AllParameters(mixes) && Distinct(all) && AllParameters(done) == AllParameters(mixes)
            && ResolvedAs(d, mixes, done)
    decreases |mixes|
  {
    hide ResolveMix, TakeHandles, GainCount, KnownParameter;
    if mixes == [] {
      assert used + [] == used;
    } else {
      var next := TakeHandles(d, mixes[0].parameters, used).value;
      TakenOnce(d, mixes[0].parameters, used);
      ResolvedMixes(d, mixes[1..], next);
      var (rest, _) := ResolveMixes(d, mixes[1..], next).value;
      var done := ResolveMixes(d, mixes, used).value.0;
      assert done[0] == ResolveMix(d, mixes[0]) && done[1..] == rest;
      KeepsHandles(d, mixes[0]);
      assert used + mixes[0].parameters + AllParameters(mixes[1..]) == used + AllParameters(mixes);
    }
  }

  lemma KeepsHandles(d: Declared, m: MixDeclaration)
    requires ParametersKnown(d, m)
    ensures ResolveMix(d, m).parameters == m.parameters
  {
    hide SetGains, GainsOf, GainCount;
  }

  lemma {:induction false} ResolvedAt(d: Declared, mixes: seq<MixDeclaration>, done: seq<MixDeclaration>, k: nat)
    requires ResolvedAs(d, mixes, done) && k < |mixes|
    ensures |done| == |mixes| && ParametersKnown(d, mixes[k]) && done[k] == ResolveMix(d, mixes[k])
    decreases k
  {
    hide ResolveMix, ParametersKnown;
    if k > 0 {
      ResolvedAt(d, mixes[1..], done[1..], k - 1);
    }
  }

  /** Presentation `k` of `r` is that of `d`, with its template gains replaced. */
  predicate ResolvedFrom(d: Declared, r: Declared, k: nat)
    requires k < |d.mixPresentations| == |r.mixPresentations|
  {
    ParametersKnown(d, d.mixPresentations[k]) && r.mixPresentations[k] == ResolveMix(d, d.mixPresentations[k])
  }

  /** After resolving, every gain handle is known, used once, and all of them are used. */
  lemma ResolvedKnows(d: Declared)
    ensures ResolveReferences(d).Ok? ==>
              var r := ResolveReferences(d).value;
              && r == d.(mixPresentations := r.mixPresentations)
              && |r.mixPresentations| == |d.mixPresentations|
              && (forall k | 0 <= k < |d.mixPresentations| :: ResolvedFrom(d, r, k))
              && Distinct(AllParameters(r.mixPresentations)) && |AllParameters(r.mixPresentations)| == |r.parameters|
              && forall k | 0 <= k < |r.mixPresentations| ::
                   && ParametersKnown(r, r.mixPresentations[k])
                   && MixGains(r.mixPresentations[k].presentation.subMixes) ==
                      GainsOf(r, r.mixPresentations[k].parameters)
  {
    hide ResolveMixes, GainsOf, SetGains, GainCount, MixGains, References, ResolvedAs;
    if ResolveReferences(d).Ok? {
      var r := ResolveReferences(d).value;
      ResolvedMixes(d, d.mixPresentations, []);
      assert [] + AllParameters(d.mixPresentations) == AllParameters(d.mixPresentations);
      forall k | 0 <= k < |r.mixPresentations|
        ensures ResolvedFrom(d, r, k)
        ensures ParametersKnown(r, r.mixPresentations[k])
        ensures MixGains(r.mixPresentations[k].presentation.subMixes) == GainsOf(r, r.mixPresentations[k].parameters)
      {
        ResolvedAt(d, d.mixPresentations, r.mixPresentations, k);
        ResolvedOne(d, r, k);
      }
    }
  }

  lemma ResolvedOne(d: Declared, r: Declared, k: nat)
    requires k < |d.mixPresentations| == |r.mixPresentations| && r == d.(mixPresentations := r.mixPresentations)
    requires ParametersKnown(d, d.mixPresentations[k])
    requires r.mixPresentations[k] == ResolveMix(d, d.mixPresentations[k])
    ensures ResolvedFrom(d, r, k) && r.mixPresentations[k].parameters == d.mixPresentations[k].parameters
    ensures ParametersKnown(r, r.mixPresentations[k])
    ensures MixGains(r.mixPresentations[k].presentation.subMixes) == GainsOf(r, r.mixPresentations[k].parameters)
  {
    hide SetGains, GainCount, MixGains, References;
    var m := d.mixPresentations[k];
    SetGainsSets(m.presentation.subMixes, GainsOf(d, m.parameters));
    assert GainsOf(d, m.parameters) == GainsOf(r, m.parameters);
  }

  // ----------------------------------------------------------------- validated

  lemma {:induction false} CheckedSubstreams(d: Declared, e: ElementDeclaration, position: nat)
    requires position <= |e.substreams| && CheckSubstreams(d, e, position).Ok?
    ensures forall k | position <= k < |e.substreams| ::
              e.substreams[k].generation == d.generation && e.substreams[k].index < |d.substreams|
    decreases |e.substreams| - position
  {
    hide SharedAlike;
    if position < |e.substreams| {
      CheckedSubstreams(d, e, position + 1);
    }
  }

  lemma CheckedElement(d: Declared, e: ElementDeclaration)
    requires CheckElement(d, e).Ok?
    ensures e.codecConfig.generation == d.generation && e.codecConfig.index < |d.codecConfigs|
    ensures forall h | h in e.substreams :: h.generation == d.generation && h.index < |d.substreams|
    ensures ElementClean(e.element) && |e.substreams| == |e.element.audioSubstreamIds|
    ensures CheckTopology(e.element).Ok?
  {
    hide CheckTopology, ElementClean, CheckSubstreams;
    CheckedSubstreams(d, e, 0);
  }

  lemma CheckedMix(d: Declared, m: MixDeclaration)
    requires CheckMix(d, m).Ok?
    ensures |m.audioElements| == References(m.presentation.subMixes) && |m.presentation.subMixes| == 1
    ensures forall h | h in m.audioElements :: h.generation == d.generation && h.index < |d.audioElements|
    ensures forall h | h in m.audioElements :: h.index < U32_LIMIT
    ensures MixClean(m.presentation.(subMixes := SetReferences(m.presentation.subMixes, ElementIds(m.audioElements))))
    ensures forall s | s in m.presentation.subMixes :: forall l | l in s.layouts :: CheckLayout(l).Ok?
  {
    hide MixClean, LanguagesDistinct, LanguagesWellFormed, AnySubMixElement, AnyLayout, References, SetReferences,
         CheckLayout, Distinct, ElementIds;
  }

  lemma CheckedTogether(d: Declared)
    requires CheckTogether(d).Ok?
    ensures d.mixPresentations != []
    ensures forall k | 0 <= k < |d.audioElements| :: d.audioElements[k].element.params == []
  {
    hide SubstreamUsed, FromDescriptors, CheckDefinition, FlatDescriptors;
  }

  /** What validation establishes, declaration by declaration. */
  lemma Validated(d: Declared)
    requires ValidateDeclarations(d).Ok?
    ensures forall k | 0 <= k < |d.codecConfigs| :: CheckCodec(d.codecConfigs[k]).Ok?
    ensures forall k | 0 <= k < |d.parameters| :: CheckParameter(d.parameters[k]).Ok?
    ensures |d.codecConfigs| <= 1 && CheckTimings(d).Ok? && CheckTogether(d).Ok?
    ensures forall k | 0 <= k < |d.audioElements| :: CheckElement(d, d.audioElements[k]).Ok?
    ensures forall k | 0 <= k < |d.mixPresentations| :: CheckMix(d, d.mixPresentations[k]).Ok?
  {
    hide CheckImplicitIds, CheckCodec, CheckParameter, CheckTimings, CheckElement, CheckMix, CheckTogether, ImplicitIds;
  }

  lemma ValidatedResolves(d: Declared)
    requires ValidateDeclarations(d).Ok?
    requires forall k | 0 <= k < |d.mixPresentations| :: ParametersKnown(d, d.mixPresentations[k])
    ensures HandlesResolve(d)
  {
    hide ValidateDeclarations, CheckElement, CheckMix, GainCount, References, MixClean, ElementClean, CheckTopology,
         SetReferences, CheckLayout;
    Validated(d);
    forall k | 0 <= k < |d.audioElements|
      ensures d.audioElements[k].codecConfig.index < |d.codecConfigs|
      ensures forall h | h in d.audioElements[k].substreams :: h.index < |d.substreams|
    {
      CheckedElement(d, d.audioElements[k]);
    }
    forall k | 0 <= k < |d.mixPresentations|
      ensures |d.mixPresentations[k].audioElements| == References(d.mixPresentations[k].presentation.subMixes)
      ensures |d.mixPresentations[k].parameters| == GainCount(d.mixPresentations[k].presentation.subMixes)
      ensures forall h | h in d.mixPresentations[k].audioElements :: h.index < |d.audioElements|
      ensures forall h | h in d.mixPresentations[k].parameters :: h.index < |d.parameters|
    {
      CheckedMix(d, d.mixPresentations[k]);
    }
  }

  /** The resolved declarations behind a build that succeeded. */
  ghost predicate Frozen(d: Declared) {
    && ValidateDeclarations(d).Ok? && Allocatable(d) && HandlesResolve(d)
    && (forall k | 0 <= k < |d.mixPresentations| ::
          && ParametersKnown(d, d.mixPresentations[k])
          && MixGains(d.mixPresentations[k].presentation.subMixes) == GainsOf(d, d.mixPresentations[k].parameters))
    && Distinct(AllParameters(d.mixPresentations)) && |AllParameters(d.mixPresentations)| == |d.parameters|
  }

  lemma BuildFreezes(d: Declared) returns (r: Declared, profile: Profile)
    requires Build(d).Ok?
    ensures ResolveReferences(d) == Ok(r)
    ensures r == d.(mixPresentations := r.mixPresentations) && |r.mixPresentations| == |d.mixPresentations|
    ensures forall k | 0 <= k < |d.mixPresentations| :: ResolvedFrom(d, r, k)
    ensures Frozen(r) && SequenceProfile(LowerElements(r), LowerMixes(r)) == Ok(profile)
    ensures Build(d) == Ok((Encoder(DescriptorsOf(r, profile), d.generation), Manifest(r, profile)))
  {
    hide ResolveReferences, ValidateDeclarations, HandlesResolve, LowerElements, LowerMixes, ParametersKnown, MixGains,
         GainsOf, AllParameters, Manifest, DescriptorsOf;
    ResolvedKnows(d);
    r := ResolveReferences(d).value;
    ValidatedResolves(r);
    profile := SequenceProfile(LowerElements(r), LowerMixes(r)).value;
  }

  // --------------------------------------------------------------- dense unique ids

  lemma {:induction false} LookUpAt<H, V>(entries: seq<(H, V)>, i: nat)
    requires i < |entries| && forall j | 0 <= j < i :: entries[j].0 != entries[i].0
    ensures LookUp(entries, entries[i].0) == Some(entries[i].1)
  {
    if i > 0 {
      LookUpAt(entries[1..], i - 1);
    }
  }

  lemma {:induction false} LookUpAbsent<H, V>(entries: seq<(H, V)>, h: H)
    requires forall j | 0 <= j < |entries| :: entries[j].0 != h
    ensures LookUp(entries, h) == None
  {
    if entries != [] {
      LookUpAbsent(entries[1..], h);
    }
  }

  /** A handle of this builder has the id of its place; a handle of another has none. */
  lemma AllocatedIds<H>(length: nat, make: nat -> H, h: H)
    requires length <= U32_LIMIT
    requires forall i: nat, j: nat | make(i) == make(j) :: i == j
    ensures forall i: nat | i < length :: LookUp(Allocate(length, make), make(i)) == Some(i)
    ensures (forall i: nat | i < length :: make(i) != h) ==> LookUp(Allocate(length, make), h) == None
  {
    var entries := Allocate(length, make);
    forall i: nat | i < length ensures LookUp(entries, make(i)) == Some(i) {
      LookUpAt(entries, i);
    }
    if forall i: nat | i < length :: make(i) != h {
      LookUpAbsent(entries, h);
    }
  }

  /** The id of a handle of this builder is its place; any other handle has none. */
  function OwnId(own: bool, index: nat): Option<nat> {
    if own then Some(index) else None
  }

  /** Every table of the manifest knows exactly the handles this builder gave out, under dense ids. */
  ghost predicate ManifestIds(d: Declared, m: IdManifest) {
    var g := d.generation;
    && (forall h: CodecConfigHandle ::
          LookUp(m.codecConfigs, h) == OwnId(h.generation == g && h.index < |d.codecConfigs|, h.index))
    && (forall h: AudioElementHandle ::
          LookUp(m.audioElements, h) == OwnId(h.generation == g && h.index < |d.audioElements|, h.index))
    && (forall h: MixPresentationHandle ::
          LookUp(m.mixPresentations, h) == OwnId(h.generation == g && h.index < |d.mixPresentations|, h.index))
    && (forall h: SubstreamHandle ::
          LookUp(m.substreamIds, h) == OwnId(h.generation == g && h.index < |d.substreams|, h.index))
    && (forall h: ParameterHandle ::
          LookUp(m.parameterIds, h) == OwnId(h.generation == g && h.index < |d.parameters|, h.index))
    && (forall h: AudioElementHandle ::
          LookUp(m.elementSubstreams, h) ==
          if h.generation == g && h.index < |d.audioElements| then Some(d.audioElements[h.index].substreams) else None)
    && (forall h: MixPresentationHandle ::
          LookUp(m.presentationParameters, h) ==
          if h.generation == g && h.index < |d.mixPresentations| then Some(d.mixPresentations[h.index].parameters)
          else None)
  }

  /** The ids on the wire are the manifest's for the handles, one for one and in order. */
  predicate Maps<H(==)>(entries: seq<(H, u32)>, handles: seq<H>, ids: seq<u32>) {
    && |ids| == |handles|
    && forall k | 0 <= k < |ids| :: LookUp(entries, handles[k]) == Some(ids[k])
  }

  /** The codec config at place `i` is the declared one under its manifest id. */
  predicate CodecMapped(d: Declared, set_: DescriptorSet, m: IdManifest, i: nat)
    requires i < |set_.codecConfigs| == |d.codecConfigs|
  {
    var w := set_.codecConfigs[i];
    && w == d.codecConfigs[i].(codecConfigId := w.codecConfigId)
    && LookUp(m.codecConfigs, CodecConfigHandle(d.generation, i)) == Some(w.codecConfigId)
  }

  /** The element at place `i` is the declared one; its own id and those it refers to are the manifest's. */
  predicate ElementMapped(d: Declared, set_: DescriptorSet, m: IdManifest, i: nat)
    requires i < |set_.audioElements| == |d.audioElements|
  {
    var e, w := d.audioElements[i], set_.audioElements[i];
    && w == e.element.(audioElementId := w.audioElementId, codecConfigId := w.codecConfigId,
                       audioSubstreamIds := w.audioSubstreamIds)
    && LookUp(m.audioElements, AudioElementHandle(d.generation, i)) == Some(w.audioElementId)
    && LookUp(m.codecConfigs, e.codecConfig) == Some(w.codecConfigId)
    && Maps(m.substreamIds, e.substreams, w.audioSubstreamIds)
  }

  /** What a sub-mix says besides ids and gains. */
  datatype Outline = Outline(elements: seq<(seq<seq<u8>>, RenderingConfig)>, layouts: seq<LayoutWithLoudness>)

  function OutlineOf(s: SubMix): Outline {
    Outline(seq(|s.elements|, i requires 0 <= i < |s.elements| => (s.elements[i].annotations, s.elements[i].rendering)),
            s.layouts)
  }

  function Outlines(subMixes: seq<SubMix>): (r: seq<Outline>)
    ensures |r| == |subMixes|
  {
    seq(|subMixes|, i requires 0 <= i < |subMixes| => OutlineOf(subMixes[i]))
  }

  /** The gain at each place on the wire is the declared one of its handle, under the manifest's id. */
  predicate GainsMapped(d: Declared, m: IdManifest, handles: seq<ParameterHandle>, gains: seq<MixGainDefinition>) {
    && |gains| == |handles|
    && forall k | 0 <= k < |gains| ::
         && handles[k].index < |d.parameters|
         && gains[k] == Named(d.parameters[handles[k].index].gain, gains[k].definition.parameterId)
         && LookUp(m.parameterIds, handles[k]) == Some(gains[k].definition.parameterId)
  }

  /**
    The presentation at place `i` is the declared one; its own id and those of the elements it refers to are
    the manifest's, and so is every gain.
  */
  predicate MixMapped(d: Declared, set_: DescriptorSet, m: IdManifest, i: nat)
    requires i < |set_.mixPresentations| == |d.mixPresentations|
  {
    var v, w := d.mixPresentations[i], set_.mixPresentations[i];
    && w == v.presentation.(mixPresentationId := w.mixPresentationId, subMixes := w.subMixes)
    && Outlines(w.subMixes) == Outlines(v.presentation.subMixes)
    && LookUp(m.mixPresentations, MixPresentationHandle(d.generation, i)) == Some(w.mixPresentationId)
    && Maps(m.audioElements, v.audioElements, ReferencedIds(w.subMixes))
    && GainsMapped(d, m, v.parameters, MixGains(w.subMixes))
  }

  /** The descriptors are the declarations, in place, with every handle turned into its manifest id. */
  ghost predicate Mapped(d: Declared, set_: DescriptorSet, m: IdManifest) {
    && |set_.codecConfigs| == |d.codecConfigs| && |set_.audioElements| == |d.audioElements|
    && |set_.mixPresentations| == |d.mixPresentations|
    && (forall i: nat | i < |d.codecConfigs| :: CodecMapped(d, set_, m, i))
    && (forall i: nat | i < |d.audioElements| :: ElementMapped(d, set_, m, i))
    && (forall i: nat | i < |d.mixPresentations| :: MixMapped(d, set_, m, i))
  }

  lemma OwnIds<H(!new)>(length: nat, make: nat -> H, generation: H -> u64, index: H -> nat, g: u64)
    requires length <= U32_LIMIT
    requires forall i: nat, j: nat | make(i) == make(j) :: i == j
    requires forall h :: generation(h) == g <==> make(index(h)) == h
    requires forall i: nat :: index(make(i)) == i
    ensures forall h :: LookUp(Allocate(length, make), h) == OwnId(generation(h) == g && index(h) < length, index(h))
  {
    hide LookUp, Allocate;
    forall h ensures LookUp(Allocate(length, make), h) == OwnId(generation(h) == g && index(h) < length, index(h)) {
      AllocatedIds(length, make, h);
      if generation(h) == g && index(h) < length {
        assert make(index(h)) == h;
      }
    }
  }

  lemma {:induction false} LookUpPlace<H, V>(entries: seq<(H, V)>, h: H, i: nat)
    requires forall j, k | 0 <= j < k < |entries| :: entries[j].0 != entries[k].0
    ensures i < |entries| && entries[i].0 == h ==> LookUp(entries, h) == Some(entries[i].1)
    ensures (forall j | 0 <= j < |entries| :: entries[j].0 != h) ==> LookUp(entries, h) == None
  {
    if i < |entries| && entries[i].0 == h {
      LookUpAt(entries, i);
    }
    if forall j | 0 <= j < |entries| :: entries[j].0 != h {
      LookUpAbsent(entries, h);
    }
  }

  lemma ManifestKnowsItsHandles(d: Declared, profile: Profile)
    requires Allocatable(d)
    ensures ManifestIds(d, Manifest(d, profile))
  {
    hide LookUp, OwnId, Allocate;
    var g := d.generation;
    var m := Manifest(d, profile);
    OwnIds(|d.codecConfigs|, (i: nat) => CodecConfigHandle(g, i), (h: CodecConfigHandle) => h.generation,
           (h: CodecConfigHandle) => h.index, g);
    OwnIds(|d.audioElements|, (i: nat) => AudioElementHandle(g, i), (h: AudioElementHandle) => h.generation,
           (h: AudioElementHandle) => h.index, g);
    OwnIds(|d.mixPresentations|, (i: nat) => MixPresentationHandle(g, i), (h: MixPresentationHandle) => h.generation,
           (h: MixPresentationHandle) => h.index, g);
    OwnIds(|d.substreams|, (i: nat) => SubstreamHandle(g, i), (h: SubstreamHandle) => h.generation,
           (h: SubstreamHandle) => h.index, g);
    OwnIds(|d.parameters|, (i: nat) => ParameterHandle(g, i), (h: ParameterHandle) => h.generation,
           (h: ParameterHandle) => h.index, g);
    forall h: AudioElementHandle
      ensures LookUp(m.elementSubstreams, h) ==
              if h.generation == g && h.index < |d.audioElements| then Some(d.audioElements[h.index].substreams)
              else None
    {
      LookUpPlace(m.elementSubstreams, h, h.index);
    }
    forall h: MixPresentationHandle
      ensures LookUp(m.presentationParameters, h) ==
              if h.generation == g && h.index < |d.mixPresentations| then Some(d.mixPresentations[h.index].parameters)
              else None
    {
      LookUpPlace(m.presentationParameters, h, h.index);
    }
  }

  /** Declared, looked up and on the wire agree, descriptor by descriptor. */
  lemma ManifestIsTheWire(d: Declared, profile: Profile)
    requires Frozen(d)
    ensures ManifestIds(d, Manifest(d, profile)) && Mapped(d, DescriptorsOf(d, profile), Manifest(d, profile))
  {
    hide LookUp, ManifestIds, Manifest, LowerElement, LowerMix, Frozen, HandlesResolve, CodecMapped, ElementMapped,
         MixMapped;
    FrozenResolves(d);
    ManifestKnowsItsHandles(d, profile);
    var set_, m := DescriptorsOf(d, profile), Manifest(d, profile);
    forall i: nat | i < |d.codecConfigs| ensures CodecMapped(d, set_, m, i) {
      CodecOnTheWire(d, profile, i);
    }
    forall i: nat | i < |d.audioElements| ensures ElementMapped(d, set_, m, i) {
      ElementOnTheWire(d, profile, i);
    }
    forall i: nat | i < |d.mixPresentations| ensures MixMapped(d, set_, m, i) {
      MixOnTheWire(d, profile, i);
    }
  }

  lemma CodecOnTheWire(d: Declared, profile: Profile, i: nat)
    requires Frozen(d) && Allocatable(d) && HandlesResolve(d) && i < |d.codecConfigs|
    ensures CodecMapped(d, DescriptorsOf(d, profile), Manifest(d, profile), i)
  {
    hide Frozen, HandlesResolve, LookUp, Manifest, LowerElements, LowerMixes;
    ManifestKnowsItsHandles(d, profile);
  }

  lemma ElementOnTheWire(d: Declared, profile: Profile, i: nat)
    requires Frozen(d) && Allocatable(d) && HandlesResolve(d) && i < |d.audioElements|
    ensures ElementMapped(d, DescriptorsOf(d, profile), Manifest(d, profile), i)
  {
    hide Frozen, LookUp, Manifest, LowerMixes, CheckElement, ElementClean, CheckTopology;
    FrozenValidates(d);
    Validated(d);
    CheckedElement(d, d.audioElements[i]);
    ManifestKnowsItsHandles(d, profile);
    var e := d.audioElements[i];
    forall k | 0 <= k < |e.substreams|
      ensures LookUp(Manifest(d, profile).substreamIds, e.substreams[k]) == Some(SubstreamIdsOf(e.substreams)[k])
    {
      assert e.substreams[k] in e.substreams;
    }
  }

  lemma FrozenValidates(d: Declared)
    requires Frozen(d)
    ensures ValidateDeclarations(d).Ok?
    ensures forall k | 0 <= k < |d.mixPresentations| ::
              && ParametersKnown(d, d.mixPresentations[k])
              && MixGains(d.mixPresentations[k].presentation.subMixes) == GainsOf(d, d.mixPresentations[k].parameters)
  {
    hide ValidateDeclarations, HandlesResolve, ParametersKnown, MixGains, GainsOf, AllParameters;
  }

  lemma {:induction false} SetGainsOutlines(subMixes: seq<SubMix>, gains: seq<MixGainDefinition>)
    requires |gains| == GainCount(subMixes)
    ensures Outlines(SetGains(subMixes, gains)) == Outlines(subMixes)
  {
    if subMixes != [] {
      var n := |subMixes[0].elements|;
      var r := SetGains(subMixes, gains);
      SetGainsOutlines(subMixes[1..], gains[n + 1..]);
      assert r[1..] == SetGains(subMixes[1..], gains[n + 1..]);
      assert OutlineOf(r[0]) == OutlineOf(subMixes[0]);
      assert forall k | 1 <= k < |subMixes| ::
          Outlines(r[1..])[k - 1] == OutlineOf(r[k]) && Outlines(subMixes[1..])[k - 1] == OutlineOf(subMixes[k]);
    }
  }

  lemma {:induction false} SetReferencesOutlines(subMixes: seq<SubMix>, ids: seq<u32>)
    requires |ids| == References(subMixes)
    ensures Outlines(SetReferences(subMixes, ids)) == Outlines(subMixes)
  {
    if subMixes != [] {
      var n := |subMixes[0].elements|;
      var r := SetReferences(subMixes, ids);
      SetReferencesOutlines(subMixes[1..], ids[n..]);
      assert r[1..] == SetReferences(subMixes[1..], ids[n..]);
      assert OutlineOf(r[0]) == OutlineOf(subMixes[0]);
      assert forall k | 1 <= k < |subMixes| ::
          Outlines(r[1..])[k - 1] == OutlineOf(r[k]) && Outlines(subMixes[1..])[k - 1] == OutlineOf(subMixes[k]);
    }
  }

  /** The gains of a lowered presentation are the declared ones, each under the id of its handle. */
  lemma LoweredGains(d: Declared, m: MixDeclaration, id: u32)
    requires ParametersKnown(d, m) && MixGains(m.presentation.subMixes) == GainsOf(d, m.parameters)
    requires |m.audioElements| == References(m.presentation.subMixes)
    requires forall h | h in m.audioElements :: h.index < U32_LIMIT
    requires forall h | h in m.parameters :: h.index < U32_LIMIT
    ensures MixGains(LowerMix(m, id).subMixes) == NameGains(GainsOf(d, m.parameters), ParameterIdsOf(m.parameters))
    ensures Outlines(LowerMix(m, id).subMixes) == Outlines(m.presentation.subMixes)
  {
    hide SetReferences, SetGains, GainCount, MixGains, References, Outlines;
    var referenced := SetReferences(m.presentation.subMixes, ElementIds(m.audioElements));
    var ids := ParameterIdsOf(m.parameters);
    SetReferencesKeepsGains(m.presentation.subMixes, ElementIds(m.audioElements));
    SetReferencesOutlines(m.presentation.subMixes, ElementIds(m.audioElements));
    SetGainsSets(referenced, NameGains(MixGains(referenced), ids));
    SetGainsOutlines(referenced, NameGains(MixGains(referenced), ids));
  }

  /** A lowered presentation in terms of its declaration. */
  ghost predicate LoweredAs(d: Declared, v: MixDeclaration, w: MixPresentation, id: u32)
    requires ParametersKnown(d, v)
    requires forall h | h in v.audioElements :: h.index < U32_LIMIT
    requires forall h | h in v.parameters :: h.index < U32_LIMIT
  {
    && w == v.presentation.(mixPresentationId := id, subMixes := w.subMixes)
    && Outlines(w.subMixes) == Outlines(v.presentation.subMixes)
    && ReferencedIds(w.subMixes) == ElementIds(v.audioElements)
    && MixGains(w.subMixes) == NameGains(GainsOf(d, v.parameters), ParameterIdsOf(v.parameters))
  }

  lemma LowersAs(d: Declared, v: MixDeclaration, id: u32)
    requires CheckMix(d, v).Ok? && ParametersKnown(d, v)
    requires MixGains(v.presentation.subMixes) == GainsOf(d, v.parameters)
    requires |v.audioElements| == References(v.presentation.subMixes)
    requires forall h | h in v.audioElements :: h.index < U32_LIMIT
    requires forall h | h in v.parameters :: h.index < U32_LIMIT
    ensures LoweredAs(d, v, LowerMix(v, id), id)
  {
    hide MixClean, CheckMix, MixGains, Outlines, SetReferences, SetParameterIds, ReferencedIds, CheckLayout, References,
         GainCount;
    CheckedMix(d, v);
    LoweredGains(d, v, id);
    LoweredMixClean(d, v, id);
    OneSubMix(v.presentation.subMixes, ElementIds(v.audioElements));
  }

  lemma MixOnTheWire(d: Declared, profile: Profile, i: nat)
    requires Frozen(d) && Allocatable(d) && HandlesResolve(d) && i < |d.mixPresentations|
    ensures MixMapped(d, DescriptorsOf(d, profile), Manifest(d, profile), i)
  {
    hide Frozen, LookUp, Manifest, LowerElements, LowerMix, MixClean, CheckMix, MixGains, Outlines, ReferencedIds,
         CheckLayout, References, GainCount, Maps, GainsMapped;
    FrozenValidates(d);
    Validated(d);
    var v := d.mixPresentations[i];
    CheckedMix(d, v);
    LowersAs(d, v, i);
    ManifestKnowsItsHandles(d, profile);
    ReferencesMapped(d, profile, v);
    ParametersMapped(d, profile, v);
  }

  lemma ReferencesMapped(d: Declared, profile: Profile, v: MixDeclaration)
    requires Allocatable(d)
    requires forall h | h in v.audioElements :: h.generation == d.generation && h.index < |d.audioElements|
    requires forall h | h in v.audioElements :: h.index < U32_LIMIT
    ensures Maps(Manifest(d, profile).audioElements, v.audioElements, ElementIds(v.audioElements))
  {
    hide LookUp, Manifest;
    ManifestKnowsItsHandles(d, profile);
    forall k | 0 <= k < |v.audioElements|
      ensures LookUp(Manifest(d, profile).audioElements, v.audioElements[k]) == Some(ElementIds(v.audioElements)[k])
    {
      assert v.audioElements[k] in v.audioElements;
    }
  }

  lemma ParametersMapped(d: Declared, profile: Profile, v: MixDeclaration)
    requires Allocatable(d) && ParametersKnown(d, v)
    requires forall h | h in v.parameters :: h.index < U32_LIMIT
    ensures GainsMapped(
              d, Manifest(d, profile), v.parameters, NameGains(GainsOf(d, v.parameters), ParameterIdsOf(v.parameters)))
  {
    hide LookUp, Manifest, GainCount;
    ManifestKnowsItsHandles(d, profile);
    forall k | 0 <= k < |v.parameters|
      ensures KnownParameter(d, v.parameters[k])
      ensures LookUp(Manifest(d, profile).parameterIds, v.parameters[k]) == Some(ParameterIdsOf(v.parameters)[k])
    {
      assert v.parameters[k] in v.parameters;
    }
  }

  lemma LoweredMixId(m: MixDeclaration, id: u32)
    requires |m.audioElements| == References(m.presentation.subMixes)
    requires |m.parameters| == GainCount(m.presentation.subMixes)
    requires forall h | h in m.audioElements :: h.index < U32_LIMIT
    requires forall h | h in m.parameters :: h.index < U32_LIMIT
    ensures LowerMix(m, id).mixPresentationId == id
  {
  }

  // ------------------------------------------------------------- nothing to report

  lemma LoweredElementClean(e: ElementDeclaration, id: u32)
    requires e.codecConfig.index < U32_LIMIT && forall h | h in e.substreams :: h.index < U32_LIMIT
    requires ElementClean(e.element) && |e.substreams| == |e.element.audioSubstreamIds|
    ensures ElementClean(LowerElement(e, id))
  {
  }

  /** A sub-mix with its parameter ids replaced differs in nothing else. */
  lemma NamedSubMix(s: SubMix, ids: seq<u32>)
    requires |ids| == |s.elements| + 1
    ensures GainCount([s]) == |ids|
    ensures var r := SetParameterIds([s], ids);
            && |r| == 1 && r[0].layouts == s.layouts && |r[0].elements| == |s.elements|
            && r[0].outputMixGain == Named(s.outputMixGain, ids[|s.elements|])
            && forall k | 0 <= k < |s.elements| ::
                 r[0].elements[k] == s.elements[k].(mixGain := Named(s.elements[k].mixGain, ids[k]))
  {
    assert [s][1..] == [];
    var n := |s.elements|;
    assert MixGains([s]) == ElementGains(s.elements) + [s.outputMixGain];
    var g := NameGains(MixGains([s]), ids);
    assert g[n + 1..] == [];
    assert SetGains([s], g)[0] == s.(elements := WithGains(s.elements, g[..n]), outputMixGain := g[n]);
  }

  lemma NamedSubMixClean(s: SubMix, ids: seq<u32>, countLabel: nat)
    requires |ids| == |s.elements| + 1 && GainCount([s]) == |ids| && SubMixClean(s, countLabel)
    ensures var r := SetParameterIds([s], ids);
            |r| == 1 && SubMixClean(r[0], countLabel) && ReferencedIds(r) == ReferencedIds([s])
  {
    hide SetParameterIds, LayoutClean;
    NamedSubMix(s, ids);
    var r := SetParameterIds([s], ids);
    assert r[1..] == [] && [s][1..] == [];
    assert HasStereoLayout(r[0]);
    forall i | 0 <= i < |r[0].elements| ensures SubMixElementClean(r[0].elements[i], countLabel) {
      assert SubMixElementClean(s.elements[i], countLabel);
    }
  }

  lemma LoweredMixClean(d: Declared, m: MixDeclaration, id: u32)
    requires CheckMix(d, m).Ok? && |m.parameters| == GainCount(m.presentation.subMixes)
    requires |m.audioElements| == References(m.presentation.subMixes)
    requires forall h | h in m.audioElements :: h.index < U32_LIMIT
    requires forall h | h in m.parameters :: h.index < U32_LIMIT
    ensures MixClean(LowerMix(m, id)) && |LowerMix(m, id).subMixes| == 1
    ensures LowerMix(m, id).subMixes[0].layouts == m.presentation.subMixes[0].layouts
    ensures ReferencedIds(LowerMix(m, id).subMixes) ==
            ReferencedIds(SetReferences(m.presentation.subMixes, ElementIds(m.audioElements)))
  {
    hide CheckMix, SubMixClean, LanguagesDistinct, LanguagesWellFormed, SetParameterIds, ReferencedIds, ElementIds,
         ParameterIdsOf, CheckLayout;
    CheckedMix(d, m);
    var referenced := SetReferences(m.presentation.subMixes, ElementIds(m.audioElements));
    var ids := ParameterIdsOf(m.parameters);
    SetReferencesKeepsGains(m.presentation.subMixes, ElementIds(m.audioElements));
    OneSubMix(m.presentation.subMixes, ElementIds(m.audioElements));
    assert referenced == [referenced[0]];
    OneGainCount(referenced[0]);
    NamedSubMixClean(referenced[0], ids, |m.presentation.annotationsLanguage|);
    NamedSubMix(referenced[0], ids);
  }

  lemma OneGainCount(s: SubMix)
    ensures GainCount([s]) == |s.elements| + 1
  {
    assert [s][1..] == [];
  }

  lemma OneSubMix(subMixes: seq<SubMix>, ids: seq<u32>)
    requires |subMixes| == 1 && |ids| == References(subMixes)
    ensures |SetReferences(subMixes, ids)| == 1
    ensures SetReferences(subMixes, ids)[0].layouts == subMixes[0].layouts
    ensures ReferencedIds(SetReferences(subMixes, ids)) == ids
  {
    assert subMixes[1..] == [];
    var r := SetReferences(subMixes, ids);
    assert r[1..] == [];
    assert ids[..|subMixes[0].elements|] == ids;
  }

  // ------------------------------------------------------------- the parameter registry

  function Definitions(gains: seq<MixGainDefinition>): (r: Registry)
    ensures |r| == |gains|
  {
    seq(|gains|, i requires 0 <= i < |gains| => Registered(gains[i].definition, MixGainContext))
  }

  lemma {:induction false} MixDefinitionsAreGains(subMixes: seq<SubMix>)
    ensures MixDefinitions(subMixes) == Definitions(MixGains(subMixes))
  {
    if subMixes != [] {
      MixDefinitionsAreGains(subMixes[1..]);
      var head := subMixes[0];
      assert Definitions(ElementGains(head.elements)) == GainDefinitions(head.elements);
      assert Definitions(ElementGains(head.elements) + [head.outputMixGain] + MixGains(subMixes[1..]))
          == Definitions(ElementGains(head.elements)) + [Registered(head.outputMixGain.definition, MixGainContext)]
             + Definitions(MixGains(subMixes[1..]));
    }
  }

  /** The definition a handle stands for on the wire. */
  function WireDefinition(d: Declared, h: ParameterHandle): Registered
    requires KnownParameter(d, h) && h.index < U32_LIMIT
  {
    Registered(d.parameters[h.index].gain.definition.(parameterId := h.index), MixGainContext)
  }

  predicate AllKnown(d: Declared, handles: seq<ParameterHandle>) {
    forall i | 0 <= i < |handles| :: KnownParameter(d, handles[i]) && handles[i].index < U32_LIMIT
  }

  function WireDefinitions(d: Declared, handles: seq<ParameterHandle>): (r: Registry)
    requires AllKnown(d, handles)
    ensures |r| == |handles|
  {
    seq(|handles|, i requires 0 <= i < |handles| => WireDefinition(d, handles[i]))
  }

  lemma LoweredDefinitions(d: Declared, m: MixDeclaration, id: u32)
    requires ParametersKnown(d, m) && AllKnown(d, m.parameters)
    requires MixGains(m.presentation.subMixes) == GainsOf(d, m.parameters)
    requires |m.audioElements| == References(m.presentation.subMixes)
    requires forall h | h in m.audioElements :: h.index < U32_LIMIT
    requires forall h | h in m.parameters :: h.index < U32_LIMIT
    ensures MixDefinitions(LowerMix(m, id).subMixes) == WireDefinitions(d, m.parameters)
  {
    hide MixDefinitions, SetReferences, SetGains, GainCount, MixGains, References;
    LoweredGains(d, m, id);
    MixDefinitionsAreGains(LowerMix(m, id).subMixes);
    var ids := ParameterIdsOf(m.parameters);
    var gains := NameGains(GainsOf(d, m.parameters), ids);
    forall i | 0 <= i < |gains| ensures Definitions(gains)[i] == WireDefinitions(d, m.parameters)[i] {
      assert m.parameters[i] in m.parameters;
    }
    assert Definitions(gains) == WireDefinitions(d, m.parameters);
  }

  lemma {:induction false} MixesObservedAs(
      d: Declared, registry: Registry, decls: seq<MixDeclaration>, mixes: seq<MixPresentation>)
    requires |decls| == |mixes|
    requires forall k | 0 <= k < |mixes| ::
               AllKnown(d, decls[k].parameters) &&
               MixDefinitions(mixes[k].subMixes) == WireDefinitions(d, decls[k].parameters)
    ensures AllKnown(d, AllParameters(decls))
    ensures ObserveMixes(registry, mixes) == registry + WireDefinitions(d, AllParameters(decls))
    decreases |decls|
  {
    hide MixDefinitions, WireDefinition, KnownParameter;
    if decls == [] {
      assert registry + [] == registry;
    } else {
      var first := decls[0].parameters;
      MixesObservedAs(d, ObserveMix(registry, mixes[0]), decls[1..], mixes[1..]);
      var rest := AllParameters(decls[1..]);
      assert WireDefinitions(d, first + rest) == WireDefinitions(d, first) + WireDefinitions(d, rest);
      assert registry + WireDefinitions(d, first) + WireDefinitions(d, rest)
          == registry + (WireDefinitions(d, first) + WireDefinitions(d, rest));
    }
  }

  lemma {:induction false} NoElementParameters(registry: Registry, elements: seq<AudioElement>)
    requires forall i | 0 <= i < |elements| :: elements[i].params == []
    ensures ObserveElements(registry, elements) == registry
    decreases |elements|
  {
    if elements != [] {
      assert ObserveElement(registry, elements[0]) == registry;
      NoElementParameters(registry, elements[1..]);
    }
  }

  lemma AlreadySorted(d: Declared, profile: Profile)
    requires Allocatable(d) && HandlesResolve(d)
    ensures SortedElements(DescriptorsOf(d, profile)) == LowerElements(d)
    ensures SortedCodecs(DescriptorsOf(d, profile)) == LowerCodecs(d.codecConfigs)
  {
    hide HandlesResolve, LowerMixes;
    SortedWhenAscending(LowerElements(d), (e: AudioElement) => e.audioElementId);
    SortedWhenAscending(LowerCodecs(d.codecConfigs), (c: CodecConfig) => c.codecConfigId);
  }

  /** The registry holds each declared gain once, under its wire id, in wire order. */
  lemma RegistryIsTheHandles(d: Declared, profile: Profile)
    requires Frozen(d)
    ensures AllKnown(d, AllParameters(d.mixPresentations))
    ensures FromDescriptors(DescriptorsOf(d, profile)) == WireDefinitions(d, AllParameters(d.mixPresentations))
  {
    hide ValidateDeclarations, AllParameters, MixGains, GainsOf, LowerMix, SortedElements, ObserveElements,
         ObserveMixes, CheckElement, CheckMix, CheckTogether, MixDefinitions, GainCount, WireDefinitions;
    Validated(d);
    CheckedTogether(d);
    AlreadySorted(d, profile);
    NoElementParameters([], LowerElements(d));
    forall k | 0 <= k < |d.mixPresentations|
      ensures AllKnown(d, d.mixPresentations[k].parameters)
      ensures MixDefinitions(LowerMixes(d)[k].subMixes) == WireDefinitions(d, d.mixPresentations[k].parameters)
    {
      var m := d.mixPresentations[k];
      assert ParametersKnown(d, m);
      KnownByIndex(d, m.parameters);
      LoweredDefinitions(d, m, k);
    }
    MixesObservedAs(d, [], d.mixPresentations, LowerMixes(d));
    assert [] + WireDefinitions(d, AllParameters(d.mixPresentations)) ==
           WireDefinitions(d, AllParameters(d.mixPresentations));
  }

  lemma KnownByIndex(d: Declared, handles: seq<ParameterHandle>)
    requires (forall h | h in handles :: KnownParameter(d, h)) && Allocatable(d)
    ensures AllKnown(d, handles)
  {
    forall i | 0 <= i < |handles| ensures KnownParameter(d, handles[i]) && handles[i].index < U32_LIMIT {
      assert handles[i] in handles;
    }
  }

  lemma WireIdsDistinct(d: Declared, handles: seq<ParameterHandle>)
    requires AllKnown(d, handles) && Distinct(handles)
    ensures DistinctBy(WireDefinitions(d, handles), (r: Registered) => r.definition.parameterId)
  {
    forall i, j | 0 <= i < j < |handles|
      ensures WireDefinitions(d, handles)[i].definition.parameterId !=
              WireDefinitions(d, handles)[j].definition.parameterId
    {
      assert KnownParameter(d, handles[i]) && KnownParameter(d, handles[j]);
    }
  }

  // ----------------------------------------------------------------- soundness

  lemma LoweredElements(d: Declared, profile: Profile)
    requires Frozen(d)
    ensures forall i | 0 <= i < |d.audioElements| ::
              && ElementClean(LowerElements(d)[i]) && CheckTopology(LowerElements(d)[i]).Ok?
              && LowerElements(d)[i].audioElementId == i && LowerElements(d)[i].params == []
              && LowerElements(d)[i].codecConfigId < |d.codecConfigs|
  {
    hide ValidateDeclarations, AllParameters, MixGains, GainsOf, CheckElement, CheckMix, CheckTogether, ElementClean,
         CheckTopology, ParametersKnown;
    Validated(d);
    CheckedTogether(d);
    forall i | 0 <= i < |d.audioElements|
      ensures ElementClean(LowerElements(d)[i]) && CheckTopology(LowerElements(d)[i]).Ok?
    {
      CheckedElement(d, d.audioElements[i]);
      LoweredElementClean(d.audioElements[i], i);
      LoweredTopology(d.audioElements[i], i);
    }
  }

  lemma LoweredTopology(e: ElementDeclaration, id: u32)
    requires e.codecConfig.index < U32_LIMIT && forall h | h in e.substreams :: h.index < U32_LIMIT
    requires CheckTopology(e.element).Ok? && |e.substreams| == |e.element.audioSubstreamIds|
    ensures CheckTopology(LowerElement(e, id)).Ok?
  {
    hide MappingFits, CheckLayer;
  }

  lemma LoweredMixes(d: Declared)
    requires Frozen(d)
    ensures forall i | 0 <= i < |d.mixPresentations| ::
              && MixClean(LowerMixes(d)[i]) && LowerMixes(d)[i].mixPresentationId == i
              && |LowerMixes(d)[i].subMixes| == 1
              && (forall l | l in LowerMixes(d)[i].subMixes[0].layouts :: CheckLayout(l).Ok?)
              && forall id | id in ReferencedIds(LowerMixes(d)[i].subMixes) :: id < |d.audioElements|
  {
    hide ValidateDeclarations, AllParameters, MixGains, GainsOf, CheckElement, CheckMix, CheckTogether, MixClean,
         LowerMix, ReferencedIds, CheckLayout, SetReferences, GainCount, References;
    Validated(d);
    forall i | 0 <= i < |d.mixPresentations|
      ensures MixClean(LowerMixes(d)[i]) && LowerMixes(d)[i].mixPresentationId == i && |LowerMixes(d)[i].subMixes| == 1
      ensures forall l | l in LowerMixes(d)[i].subMixes[0].layouts :: CheckLayout(l).Ok?
      ensures forall id | id in ReferencedIds(LowerMixes(d)[i].subMixes) :: id < |d.audioElements|
    {
      var m := d.mixPresentations[i];
      assert ParametersKnown(d, m);
      CheckedMix(d, m);
      LoweredMixClean(d, m, i);
      LoweredMixId(m, i);
      OneSubMix(m.presentation.subMixes, ElementIds(m.audioElements));
      assert m.presentation.subMixes[0] in m.presentation.subMixes;
    }
  }

  lemma FoundAt(elements: seq<AudioElement>, id: u32)
    requires id < |elements| && forall i | 0 <= i < |elements| :: elements[i].audioElementId == i
    ensures FindElement(elements, id) == Some(elements[id]) && HasId(elements, id)
  {
    assert FirstBinding(elements, id);
    FindFinds(elements, id);
    assert elements[id].audioElementId == id;
  }

  lemma OneLayer(e: AudioElement)
    requires CheckTopology(e).Ok? && e.elementType.ChannelBased?
    ensures |e.elementType.layers| == 1
  {
    hide CheckLayer;
  }

  /** A sub-mix over topology-checked elements has nothing scalable to cover. */
  lemma LayoutsSuffice(s: SubMix, elements: seq<AudioElement>)
    requires forall i | 0 <= i < |elements| :: CheckTopology(elements[i]).Ok?
    ensures LayoutsCoverLayers(s, elements)
  {
    hide CheckTopology, FirstBinding, FindElement;
    if |s.elements| == 1 {
      FindIsFirst(elements, s.elements[0].audioElementId);
      var only := FindElement(elements, s.elements[0].audioElementId);
      if only.Some? && only.value.elementType.ChannelBased? {
        OneLayer(only.value);
      }
    }
  }

  /**
    Builder soundness: what `build` accepts has one descriptor per declaration, in place, with every handle
    in it turned into the id the manifest gives that handle; the manifest knows exactly this builder's
    handles, under dense ids; and there is nothing to report, on its own or across descriptors.
  */
  lemma BuildIsSound(d: Declared)
    requires Build(d).Ok?
    ensures var (e, m) := Build(d).value;
            && SetClean(e.descriptors) && e.generation == d.generation
            && m.sequenceProfile.ToWire() == e.descriptors.sequenceHeader.primaryProfile
            && ManifestIds(d, m) && Mapped(d, e.descriptors, m)
  {
    hide Build, Frozen, SetClean, LowerElements, LowerMixes, SequenceProfile, Mapped, ManifestIds;
    var r, profile := BuildFreezes(d);
    FrozenIsSound(r, profile);
    FrozenResolves(r);
    ManifestIsTheWire(r, profile);
    MappedAgrees(d, r, DescriptorsOf(r, profile), Manifest(r, profile));
  }

  /** Resolving changes only the gains of the templates. */
  lemma MappedAgrees(d: Declared, r: Declared, set_: DescriptorSet, m: IdManifest)
    requires Mapped(r, set_, m) && ManifestIds(r, m) && r == d.(mixPresentations := r.mixPresentations)
    requires |r.mixPresentations| == |d.mixPresentations|
    requires forall k | 0 <= k < |d.mixPresentations| :: ResolvedFrom(d, r, k)
    ensures Mapped(d, set_, m) && ManifestIds(d, m)
  {
    hide LookUp, OwnId, Maps, GainsMapped, SetGains, GainCount, GainsOf, Outlines;
    forall k | 0 <= k < |d.mixPresentations|
      ensures d.mixPresentations[k].parameters == r.mixPresentations[k].parameters
    {
      assert ResolvedFrom(d, r, k);
    }
    forall i: nat | i < |d.codecConfigs| ensures CodecMapped(d, set_, m, i) {
      assert CodecMapped(r, set_, m, i);
    }
    forall i: nat | i < |d.audioElements| ensures ElementMapped(d, set_, m, i) {
      assert ElementMapped(r, set_, m, i);
    }
    forall i: nat | i < |d.mixPresentations| ensures MixMapped(d, set_, m, i) {
      assert MixMapped(r, set_, m, i) && ResolvedFrom(d, r, i);
      SetGainsOutlines(d.mixPresentations[i].presentation.subMixes, GainsOf(d, d.mixPresentations[i].parameters));
      GainsAgree(d, r, m, d.mixPresentations[i].parameters, MixGains(set_.mixPresentations[i].subMixes));
    }
  }

  lemma GainsAgree(
      d: Declared, r: Declared, m: IdManifest, handles: seq<ParameterHandle>, gains: seq<MixGainDefinition>)
    requires GainsMapped(r, m, handles, gains) && r.parameters == d.parameters
    ensures GainsMapped(d, m, handles, gains)
  {
    hide LookUp;
  }

  lemma FrozenIsSound(d: Declared, profile: Profile)
    requires Frozen(d) && SequenceProfile(LowerElements(d), LowerMixes(d)) == Ok(profile)
    ensures SetClean(DescriptorsOf(d, profile))
  {
    hide ElementClean, MixClean, CodecClean, CheckTopology, LayoutsCoverLayers, FromDescriptors, ReferencesResolve,
         ProfilesClean, LowerElement, LowerMix, Frozen, HandlesResolve, CheckLayout, ReferencedIds;
    hide SequenceProfile, DistinctBy;
    FrozenResolves(d);
    var set_ := DescriptorsOf(d, profile);
    LoweredElements(d, profile);
    LoweredMixes(d);
    LoweredCodecs(d);
    SetReferencesResolve(d, profile);
    SetProfilesClean(d, profile);
    IdsDistinct(d, profile);
    forall i | 0 <= i < |set_.mixPresentations|
      ensures forall k | 0 <= k < |set_.mixPresentations[i].subMixes| ::
                LayoutsCoverLayers(set_.mixPresentations[i].subMixes[k], set_.audioElements)
    {
      forall k | 0 <= k < |set_.mixPresentations[i].subMixes|
        ensures LayoutsCoverLayers(set_.mixPresentations[i].subMixes[k], set_.audioElements)
      {
        LayoutsSuffice(set_.mixPresentations[i].subMixes[k], set_.audioElements);
      }
    }
  }

  lemma FrozenResolves(d: Declared)
    requires Frozen(d)
    ensures Allocatable(d) && HandlesResolve(d)
  {
    hide ValidateDeclarations, HandlesResolve, ParametersKnown, MixGains, GainsOf, AllParameters;
  }

  lemma LoweredCodecs(d: Declared)
    requires Frozen(d)
    ensures |d.codecConfigs| <= 1 && Allocatable(d)
    ensures forall i | 0 <= i < |d.codecConfigs| :: CodecClean(LowerCodecs(d.codecConfigs)[i])
  {
    hide ValidateDeclarations, HandlesResolve, ParametersKnown, MixGains, GainsOf, AllParameters, CheckCodec,
         CheckElement, CheckMix, CheckTogether;
    FrozenResolves(d);
    Validated(d);
    forall i | 0 <= i < |d.codecConfigs| ensures CodecClean(LowerCodecs(d.codecConfigs)[i]) {
      CheckedCodec(d.codecConfigs[i], i);
    }
  }

  lemma CheckedCodec(c: CodecConfig, id: u32)
    requires CheckCodec(c).Ok?
    ensures CodecClean(c.(codecConfigId := id)) && Typed(c.codecId, c.decoderConfig) && !c.decoderConfig.RawConfig?
  {
    hide FlacClean, OpusClean, AacClean;
  }

  lemma SetReferencesResolve(d: Declared, profile: Profile)
    requires Frozen(d) && Allocatable(d) && HandlesResolve(d)
    ensures ReferencesResolve(DescriptorsOf(d, profile))
  {
    hide ElementClean, MixClean, CheckTopology, FromDescriptors, LowerElement, LowerMix, Frozen, HandlesResolve,
         CheckLayout, ReferencedIds, HasId;
    LoweredElements(d, profile);
    LoweredMixes(d);
    AllResolve(DescriptorsOf(d, profile));
  }

  lemma AllResolve(set_: DescriptorSet)
    requires forall i | 0 <= i < |set_.codecConfigs| :: set_.codecConfigs[i].codecConfigId == i
    requires forall i | 0 <= i < |set_.audioElements| ::
               set_.audioElements[i].audioElementId == i && set_.audioElements[i].codecConfigId < |set_.codecConfigs|
    requires forall i | 0 <= i < |set_.mixPresentations| ::
               forall id | id in ReferencedIds(set_.mixPresentations[i].subMixes) :: id < |set_.audioElements|
    ensures ReferencesResolve(set_)
  {
    hide ReferencedIds, HasId;
    forall i | 0 <= i < |set_.audioElements|
      ensures HasCodec(set_.codecConfigs, set_.audioElements[i].codecConfigId)
    {
      assert set_.codecConfigs[set_.audioElements[i].codecConfigId].codecConfigId ==
             set_.audioElements[i].codecConfigId;
    }
    forall i | 0 <= i < |set_.mixPresentations|
      ensures forall id | id in ReferencedIds(set_.mixPresentations[i].subMixes) :: HasId(set_.audioElements, id)
    {
      forall id | id in ReferencedIds(set_.mixPresentations[i].subMixes) ensures HasId(set_.audioElements, id) {
        FoundAt(set_.audioElements, id);
      }
    }
  }

  lemma SetProfilesClean(d: Declared, profile: Profile)
    requires Frozen(d) && Allocatable(d) && HandlesResolve(d)
    requires SequenceProfile(LowerElements(d), LowerMixes(d)) == Ok(profile)
    ensures ProfilesClean(DescriptorsOf(d, profile)) && HeaderClean(DescriptorsOf(d, profile).sequenceHeader)
  {
    hide HandlesResolve, SequenceProfile, LowerElements, LowerMixes, ValidateDeclarations, CheckTogether,
         ComplianceFindings, SequenceLimitFindings, CheckCodec, CheckElement, CheckMix, CheckParameter;
    Validated(d);
    CheckedTogether(d);
    SelectionIsNamed(LowerElements(d), LowerMixes(d));
    SelectedPairIsSilent(LowerElements(d), LowerMixes(d));
  }

  lemma PlacesDiffer<T(!new)>(xs: seq<T>, key: T -> u32)
    requires forall i | 0 <= i < |xs| :: key(xs[i]) == i
    ensures DistinctBy(xs, key)
  {
  }

  lemma IdsDistinct(d: Declared, profile: Profile)
    requires Frozen(d) && Allocatable(d) && HandlesResolve(d)
    ensures var set_ := DescriptorsOf(d, profile);
            && DistinctBy(set_.codecConfigs, (c: CodecConfig) => c.codecConfigId)
            && DistinctBy(set_.audioElements, (e: AudioElement) => e.audioElementId)
            && DistinctBy(set_.mixPresentations, (m: MixPresentation) => m.mixPresentationId)
            && DistinctBy(FromDescriptors(set_), (r: Registered) => r.definition.parameterId)
  {
    hide ElementClean, MixClean, CheckTopology, FromDescriptors, LowerElement, LowerMix, HandlesResolve, CheckLayout,
         ReferencedIds, AllParameters, MixGains, GainsOf, ParametersKnown, ValidateDeclarations;
    var set_ := DescriptorsOf(d, profile);
    LoweredElements(d, profile);
    LoweredMixes(d);
    PlacesDiffer(set_.codecConfigs, (c: CodecConfig) => c.codecConfigId);
    PlacesDiffer(set_.audioElements, (e: AudioElement) => e.audioElementId);
    PlacesDiffer(set_.mixPresentations, (m: MixPresentation) => m.mixPresentationId);
    RegistryIsTheHandles(d, profile);
    WireIdsDistinct(d, AllParameters(d.mixPresentations));
  }
}
