/** The encoder builder: ordered declarations behind caller-local handles, then one validating `build`. */
module EncoderBuilders {
  import opened Core
  import opened ParameterBlocks
  import opened SequenceHeaders
  import opened CodecConfigs
  import opened AudioElements
  import opened MixPresentations
  import opened Sequences
  import opened Parts
  import opened Streams
  import opened BitWriters
  import opened Streaming
  import opened Profiles
  import opened Declarations
  import Builds

  class EncoderBuilder {
    const generation: u64
    var codecConfigs: seq<CodecConfig>
    var audioElements: seq<ElementDeclaration>
    var mixPresentations: seq<MixDeclaration>
    var substreams: seq<Option<u32>>
    var parameters: seq<ParameterDeclaration>

    function Collected(): Declared
      reads this
    {
      Declared(generation, codecConfigs, audioElements, mixPresentations, substreams, parameters)
    }

    /** `generation` stands for the next value of the process-wide counter. */
    constructor (generation: u64)
      ensures Collected() == Declared(generation, [], [], [], [], [])
    {
      this.generation := generation;
      codecConfigs, audioElements, mixPresentations, substreams, parameters := [], [], [], [], [];
    }

    method AddCodecConfig(config: CodecConfig) returns (h: CodecConfigHandle)
      modifies this`codecConfigs
      ensures h == CodecConfigHandle(generation, |old(codecConfigs)|) && codecConfigs == old(codecConfigs) + [config]
    {
      h := CodecConfigHandle(generation, |codecConfigs|);
      codecConfigs := codecConfigs + [config];
    }

    method DeclareSubstream(implicitId: Option<u32>) returns (h: SubstreamHandle)
      modifies this`substreams
      ensures h == SubstreamHandle(generation, |old(substreams)|) && substreams == old(substreams) + [implicitId]
    {
      h := SubstreamHandle(generation, |substreams|);
      substreams := substreams + [implicitId];
    }

    method AddSubstream() returns (h: SubstreamHandle)
      modifies this`substreams
      ensures h == SubstreamHandle(generation, |old(substreams)|) && substreams == old(substreams) + [None]
    {
      h := DeclareSubstream(None);
    }

    method AddAudioElementWithSubstreams(codec: CodecConfigHandle, handles: seq<SubstreamHandle>, element: AudioElement)
      returns (h: AudioElementHandle)
      modifies this`audioElements
      ensures h == AudioElementHandle(generation, |old(audioElements)|)
      ensures audioElements == old(audioElements) + [ElementDeclaration(codec, handles, element)]
    {
      h := AudioElementHandle(generation, |audioElements|);
      audioElements := audioElements + [ElementDeclaration(codec, handles, element)];
    }

    /** One fresh substream per template id; the ids serve only to detect repeated labels. */
    method AddAudioElement(codec: CodecConfigHandle, element: AudioElement) returns (h: AudioElementHandle)
      modifies this`audioElements, this`substreams
      ensures h == AudioElementHandle(generation, |old(audioElements)|)
      ensures substreams == old(substreams) + Labels(element.audioSubstreamIds)
      ensures audioElements == old(audioElements) +
                [ElementDeclaration(
                   codec, FreshSubstreams(generation, |old(substreams)|, |element.audioSubstreamIds|), element)]
    {
      var handles: seq<SubstreamHandle> := [];
      assert substreams == substreams + Labels(element.audioSubstreamIds)[..0];
      for i := 0 to |element.audioSubstreamIds|
        invariant audioElements == old(audioElements)
        invariant substreams == old(substreams) + Labels(element.audioSubstreamIds)[..i]
        invariant handles == FreshSubstreams(generation, |old(substreams)|, i)
      {
        var next := DeclareSubstream(Some(element.audioSubstreamIds[i]));
        handles := handles + [next];
      }
      assert Labels(element.audioSubstreamIds)[..|element.audioSubstreamIds|] == Labels(element.audioSubstreamIds);
      h := AddAudioElementWithSubstreams(codec, handles, element);
    }

    /** The scene-based form the encoder supports, with one substream per handle. */
    method AddAmbisonicsMono(codec: CodecConfigHandle, handles: seq<SubstreamHandle>, channels: u8, count: u8,
                             mapping: seq<u8>)
      returns (h: AudioElementHandle)
      modifies this`audioElements
      ensures h == AudioElementHandle(generation, |old(audioElements)|)
      ensures audioElements == old(audioElements) +
                [ElementDeclaration(codec, handles,
                   AudioElement(
                     0, 0, SceneBased(MonoMode(channels, count, mapping)), 0, seq(|handles|, _ => 0), [], []))]
    {
      var scene := SceneBased(MonoMode(channels, count, mapping));
      var element := AudioElement(0, 0, scene, 0, seq(|handles|, _ => 0), [], []);
      h := AddAudioElementWithSubstreams(codec, handles, element);
    }

    method DeclareParameter(implicitId: Option<u32>, gain: MixGainDefinition) returns (h: ParameterHandle)
      modifies this`parameters
      ensures h == ParameterHandle(generation, |old(parameters)|)
      ensures parameters == old(parameters) + [ParameterDeclaration(implicitId, gain)]
    {
      h := ParameterHandle(generation, |parameters|);
      parameters := parameters + [ParameterDeclaration(implicitId, gain)];
    }

    method AddMixGainParameter(gain: MixGainDefinition) returns (h: ParameterHandle)
      modifies this`parameters
      ensures h == ParameterHandle(generation, |old(parameters)|)
      ensures parameters == old(parameters) + [ParameterDeclaration(None, gain)]
    {
      h := DeclareParameter(None, gain);
    }

    method AddMixPresentationWithParameters(
        elements: seq<AudioElementHandle>, handles: seq<ParameterHandle>, presentation: MixPresentation)
      returns (h: MixPresentationHandle)
      modifies this`mixPresentations
      ensures h == MixPresentationHandle(generation, |old(mixPresentations)|)
      ensures mixPresentations == old(mixPresentations) + [MixDeclaration(elements, handles, presentation)]
    {
      h := MixPresentationHandle(generation, |mixPresentations|);
      mixPresentations := mixPresentations + [MixDeclaration(elements, handles, presentation)];
    }

    /** One fresh parameter per template gain, in wire order. */
    method AddMixPresentation(elements: seq<AudioElementHandle>, presentation: MixPresentation)
      returns (h: MixPresentationHandle)
      modifies this`mixPresentations, this`parameters
      ensures h == MixPresentationHandle(generation, |old(mixPresentations)|)
      ensures parameters == old(parameters) + Labelled(MixGains(presentation.subMixes))
      ensures mixPresentations == old(mixPresentations) +
                [MixDeclaration(elements,
                                FreshParameters(generation, |old(parameters)|, GainCount(presentation.subMixes)),
                                presentation)]
    {
      var gains := MixGains(presentation.subMixes);
      var handles: seq<ParameterHandle> := [];
      assert parameters == parameters + Labelled(gains)[..0];
      for i := 0 to |gains|
        invariant mixPresentations == old(mixPresentations)
        invariant parameters == old(parameters) + Labelled(gains)[..i]
        invariant handles == FreshParameters(generation, |old(parameters)|, i)
      {
        var next := DeclareParameter(Some(gains[i].definition.parameterId), gains[i]);
        handles := handles + [next];
      }
      assert Labelled(gains)[..|gains|] == Labelled(gains);
      h := AddMixPresentationWithParameters(elements, handles, presentation);
    }

    /** The gains a presentation's handles stand for, each handle known and not used before. */
    method TakeGains(handles: seq<ParameterHandle>, used: seq<ParameterHandle>)
      returns (r: Result<(seq<MixGainDefinition>, seq<ParameterHandle>)>)
      ensures var taken := TakeHandles(Collected(), handles, used);
              && (taken.Err? ==> r == Err(taken.error))
              && (taken.Ok? ==> r == Ok((GainsOf(Collected(), handles), taken.value)))
    {
      var seen := used;
      var gains: seq<MixGainDefinition> := [];
      assert handles[0..] == handles;
      for i := 0 to |handles|
        invariant TakeHandles(Collected(), handles[i..], seen) == TakeHandles(Collected(), handles, used)
        invariant AllTaken(handles[..i]) && gains == GainsOf(Collected(), handles[..i])
      {
        var h := handles[i];
        assert handles[i..][0] == h && handles[i..][1..] == handles[i + 1..];
        if h.generation != generation || h.index >= |parameters| {
          return Err(UnknownParameterHandle);
        }
        if h in seen {
          return Err(DuplicateDeclaration);
        }
        seen := seen + [h];
        gains := gains + [parameters[h.index].gain];
        assert handles[..i + 1] == handles[..i] + [h];
      }
      assert handles[..|handles|] == handles;
      r := Ok((gains, seen));
    }

    predicate AllTaken(handles: seq<ParameterHandle>)
      reads this
    {
      forall h | h in handles :: KnownParameter(Collected(), h)
    }

    /** `resolve_parameter_references`, presentation by presentation, in place. */
    method ResolveParameterReferences() returns (r: Result<()>)
      modifies this`mixPresentations
      ensures var resolved := ResolveReferences(old(Collected()));
              && (resolved.Err? ==> r == Err(resolved.error))
              && (resolved.Ok? ==> r == Ok(()) && Collected() == resolved.value)
    {
      hide TakeHandles, GainCount, SetGains, GainsOf;
      ghost var d, target := Collected(), ResolveMixes(Collected(), mixPresentations, []);
      ghost var mixes := mixPresentations;
      var used: seq<ParameterHandle> := [];
      assert mixes[0..] == mixes;
      PrependNothing(target);
      for i := 0 to |mixPresentations|
        invariant |mixPresentations| == |mixes| && mixPresentations[i..] == mixes[i..]
        invariant Collected() == d.(mixPresentations := mixPresentations)
        invariant Prepend(mixPresentations[..i], ResolveMixes(d, mixes[i..], used)) == target
      {
        var m := mixPresentations[i];
        assert m == mixes[i..][0] && mixes[i..][1..] == mixes[i + 1..];
        if |m.parameters| != GainCount(m.presentation.subMixes) {
          return Err(INVALID);
        }
        ResolveStep(d, mixes, i, used, mixPresentations[..i]);
        SameHandles(Collected(), d, m.parameters, used);
        var taken := TakeGains(m.parameters, used);
        if taken.Err? {
          return Err(taken.error);
        }
        ghost var done := mixPresentations[..i];
        var subMixes := SetGains(m.presentation.subMixes, taken.value.0);
        var resolved := m.(presentation := m.presentation.(subMixes := subMixes));
        mixPresentations, used := mixPresentations[i := resolved], taken.value.1;
        assert mixPresentations[..i + 1] == done + [resolved];
      }
      assert mixPresentations[..|mixPresentations|] == mixPresentations;
      if |used| != |parameters| {
        return Err(INVALID);
      }
      r := Ok(());
    }

    /** `validate_declarations`. */
    method Validate() returns (r: Result<()>)
      ensures r == ValidateDeclarations(Collected())
    {
      hide CheckImplicitIds, CheckCodec, CheckParameter, CheckTimings, CheckElement, CheckMix, CheckTogether, CheckAll;
      var d := Collected();
      var _ :- CheckLabels(substreams);
      var _ :- CheckLabels(ImplicitIds(parameters));
      var _ :- CheckEach(parameters, CheckParameter);
      var _ :- CheckEach(codecConfigs, CheckCodec);
      if |codecConfigs| > 1 {
        return Err(MultipleCodecConfigs);
      }
      var _ :- CheckRates(d);
      var _ :- CheckEach(audioElements, (e: ElementDeclaration) => CheckElement(d, e));
      var _ :- CheckEach(mixPresentations, (m: MixDeclaration) => CheckMix(d, m));
      r := Rehearse(d);
    }

    /** `build`: everything is validated before anything is lowered, and ids follow declaration order. */
    method Build() returns (r: Result<(Encoder, IdManifest)>)
      modifies this`mixPresentations
      ensures r == Builds.Build(old(Collected()))
    {
      hide ResolveReferences, ValidateDeclarations, HandlesResolve, LowerElement, LowerMix, SequenceProfile;
      hide Builds.ParametersKnown, Manifest, LowerCodecs, LowerElements, LowerMixes, Allocatable;
      Builds.ResolvedKnows(Collected());
      var _ :- ResolveParameterReferences();
      var d := Collected();
      var _ :- Validate();
      if !Allocatable(d) {
        return Err(WireIdAllocationExhausted);
      }
      Builds.ValidatedResolves(d);
      var codecs, elements, mixes := Lower(d);
      var selected := SelectSequenceProfile(elements, mixes);
      if selected.Err? {
        return Err(selected.error);
      }
      var (primary, additional) := selected.value;
      var header := IaSequenceHeader(IA_CODE, primary.ToWire(), additional.ToWire(), []);
      r := Ok((Encoder(DescriptorSet(header, codecs, elements, mixes), generation), Manifest(d, primary)));
    }
  }

  // ---------------------------------------------------------------- specifications

  function Labels(ids: seq<u32>): (r: seq<Option<u32>>)
    ensures |r| == |ids|
  {
    seq(|ids|, i requires 0 <= i < |ids| => Some(ids[i]))
  }

  function FreshSubstreams(generation: u64, first: nat, count: nat): (r: seq<SubstreamHandle>)
    ensures |r| == count
  {
    seq(count, (i: nat) => SubstreamHandle(generation, first + i))
  }

  function Labelled(gains: seq<MixGainDefinition>): (r: seq<ParameterDeclaration>)
    ensures |r| == |gains|
  {
    seq(|gains|, i requires 0 <= i < |gains| => ParameterDeclaration(Some(gains[i].definition.parameterId), gains[i]))
  }

  function FreshParameters(generation: u64, first: nat, count: nat): (r: seq<ParameterHandle>)
    ensures |r| == count
  {
    seq(count, (i: nat) => ParameterHandle(generation, first + i))
  }

  function Prepend(done: seq<MixDeclaration>, r: Result<(seq<MixDeclaration>, seq<ParameterHandle>)>)
      : Result<(seq<MixDeclaration>, seq<ParameterHandle>)>
  {
    if r.Err? then r else Ok((done + r.value.0, r.value.1))
  }

  lemma PrependNothing(r: Result<(seq<MixDeclaration>, seq<ParameterHandle>)>)
    ensures Prepend([], r) == r
  {
    if r.Ok? {
      assert [] + r.value.0 == r.value.0;
    }
  }

  lemma ResolveStep(d: Declared, mixes: seq<MixDeclaration>, i: nat, used: seq<ParameterHandle>,
                    done: seq<MixDeclaration>)
    requires i < |mixes| && |mixes[i].parameters| == GainCount(mixes[i].presentation.subMixes)
    ensures var taken := TakeHandles(d, mixes[i].parameters, used);
            && (taken.Err? ==> Prepend(done, ResolveMixes(d, mixes[i..], used)) == Err(taken.error))
            && (taken.Ok? ==>
                  Prepend(done, ResolveMixes(d, mixes[i..], used)) ==
                  Prepend(done + [ResolveMix(d, mixes[i])], ResolveMixes(d, mixes[i + 1..], taken.value)))
  {
    hide TakeHandles, GainCount, ResolveMix;
    assert mixes[i..][0] == mixes[i] && mixes[i..][1..] == mixes[i + 1..];
    var taken := TakeHandles(d, mixes[i].parameters, used);
    if taken.Ok? && ResolveMixes(d, mixes[i + 1..], taken.value).Ok? {
      var rest := ResolveMixes(d, mixes[i + 1..], taken.value).value.0;
      assert done + ([ResolveMix(d, mixes[i])] + rest) == done + [ResolveMix(d, mixes[i])] + rest;
    }
  }

  /** Handles are judged by the parameters alone. */
  lemma {:induction false} SameHandles(a: Declared, b: Declared, handles: seq<ParameterHandle>,
                                       used: seq<ParameterHandle>)
    requires a.generation == b.generation && a.parameters == b.parameters
    ensures TakeHandles(a, handles, used) == TakeHandles(b, handles, used)
    ensures TakeHandles(a, handles, used).Ok? ==> GainsOf(a, handles) == GainsOf(b, handles)
    decreases |handles|
  {
    if handles != [] {
      SameHandles(a, b, handles[1..], used + [handles[0]]);
    }
  }

  // ---------------------------------------------------------------------- checks

  method CheckEach<T>(xs: seq<T>, f: T -> Result<()>) returns (r: Result<()>)
    ensures r == CheckAll(xs, f)
  {
    assert xs[0..] == xs;
    for i := 0 to |xs|
      invariant CheckAll(xs[i..], f) == CheckAll(xs, f)
    {
      assert xs[i..][0] == xs[i] && xs[i..][1..] == xs[i + 1..];
      var _ :- f(xs[i]);
    }
    r := Ok(());
  }

  /** `validate_implicit_ids`. */
  method CheckLabels(ids: seq<Option<u32>>) returns (r: Result<()>)
    ensures r == CheckImplicitIds(ids, [])
  {
    var seen: seq<u32> := [];
    assert ids[0..] == ids;
    for i := 0 to |ids|
      invariant CheckImplicitIds(ids[i..], seen) == CheckImplicitIds(ids, [])
    {
      assert ids[i..][0] == ids[i] && ids[i..][1..] == ids[i + 1..];
      if ids[i].Some? {
        if ids[i].value in seen {
          return Err(DuplicateDeclaration);
        }
        seen := seen + [ids[i].value];
      }
    }
    r := Ok(());
  }

  method CheckRates(d: Declared) returns (r: Result<()>)
    ensures r == CheckTimings(d)
  {
    hide CheckAll, CheckTiming, OutputSampleRate;
    if d.codecConfigs == [] {
      return Ok(());
    }
    var c := d.codecConfigs[0];
    var rate := OutputSampleRate(c);
    if rate.None? {
      return Err(INVALID);
    }
    r := CheckEach(d.parameters, (p: ParameterDeclaration) => CheckTiming(c, rate.value, p.gain.definition));
  }

  /** The checks of the whole set, the last of them a full serialisation under the template ids. */
  method Rehearse(d: Declared) returns (r: Result<()>)
    ensures r == CheckTogether(d)
  {
    hide CheckAll, CheckDefinition, SubstreamUsed, WAll, FlatDescriptors, FromDescriptors;
    for index := 0 to |d.substreams|
      invariant forall i: nat | i < index :: SubstreamUsed(d, i)
    {
      if !SubstreamUsed(d, index) {
        return Err(INVALID);
      }
    }
    var registry := RegistryFrom(Template(d));
    var _ :- CheckEach(registry, (r: Registered) => CheckDefinition(r.definition));
    if exists k | 0 <= k < |d.audioElements| :: d.audioElements[k].element.params != [] {
      return Err(UnsupportedParameterData);
    }
    var scratch := new BitWriter();
    var written := WriteDescriptors(scratch, Template(d));
    if written.Err? {
      return Err(written.error);
    }
    r := if d.mixPresentations != [] then Ok(()) else Err(NoMixPresentation);
  }

  // -------------------------------------------------------------------- lowering

  method Lower(d: Declared) returns (codecs: seq<CodecConfig>, elements: seq<AudioElement>, mixes: seq<MixPresentation>)
    requires Allocatable(d) && HandlesResolve(d)
    ensures codecs == LowerCodecs(d.codecConfigs) && elements == LowerElements(d) && mixes == LowerMixes(d)
  {
    hide LowerMix, LowerElement, GainCount, References;
    codecs, elements, mixes := [], [], [];
    for i := 0 to |d.codecConfigs|
      invariant codecs == LowerCodecs(d.codecConfigs)[..i]
    {
      codecs := codecs + [d.codecConfigs[i].(codecConfigId := i)];
    }
    for i := 0 to |d.audioElements|
      invariant elements == LowerElements(d)[..i]
    {
      elements := elements + [LowerElement(d.audioElements[i], i)];
    }
    for i := 0 to |d.mixPresentations|
      invariant mixes == LowerMixes(d)[..i]
    {
      var mix := LowerPresentation(d.mixPresentations[i], i);
      mixes := mixes + [mix];
    }
    assert LowerCodecs(d.codecConfigs)[..|d.codecConfigs|] == LowerCodecs(d.codecConfigs);
    assert LowerElements(d)[..|d.audioElements|] == LowerElements(d);
    assert LowerMixes(d)[..|d.mixPresentations|] == LowerMixes(d);
  }

  /** Element references and parameter ids handed out sub-mix by sub-mix: element gains, then the output gain. */
  function Lowered(subMixes: seq<SubMix>, ids: seq<u32>, names: seq<u32>): seq<SubMix>
    requires |ids| == References(subMixes) && |names| == GainCount(subMixes)
  {
    SetReferencesKeepsGains(subMixes, ids);
    SetParameterIds(SetReferences(subMixes, ids), names)
  }

  function LoweredOne(s: SubMix, ids: seq<u32>, names: seq<u32>): SubMix
    requires |ids| == |s.elements| && |names| == |s.elements| + 1
  {
    s.(elements := seq(|s.elements|, i requires 0 <= i < |s.elements| =>
                     s.elements[i].(audioElementId := ids[i], mixGain := Named(s.elements[i].mixGain, names[i]))),
       outputMixGain := Named(s.outputMixGain, names[|s.elements|]))
  }

  lemma {:induction false} LoweredCons(subMixes: seq<SubMix>, ids: seq<u32>, names: seq<u32>, n: nat)
    requires subMixes != [] && |ids| == References(subMixes) && |names| == GainCount(subMixes)
    requires n == |subMixes[0].elements|
    ensures n <= |ids| && n + 1 <= |names|
    ensures |ids[n..]| == References(subMixes[1..]) && |names[n + 1..]| == GainCount(subMixes[1..])
    ensures Lowered(subMixes, ids, names) ==
            [LoweredOne(subMixes[0], ids[..n], names[..n + 1])] + Lowered(subMixes[1..], ids[n..], names[n + 1..])
  {
    var referenced := SetReferences(subMixes, ids);
    SetReferencesKeepsGains(subMixes, ids);
    SetReferencesKeepsGains(subMixes[1..], ids[n..]);
    var first := subMixes[0].(elements := Renamed(subMixes[0].elements, ids[..n]));
    assert referenced[0] == first && referenced[1..] == SetReferences(subMixes[1..], ids[n..]);
    ConsGains(referenced, names, n);
    LoweredFirst(subMixes[0], ids[..n], names[..n + 1]);
    assert names[..n + 1][..n] == names[..n];
    assert SetParameterIds(referenced, names)[0] == LoweredOne(subMixes[0], ids[..n], names[..n + 1]);
  }

  lemma {:induction false} ConsGains(subMixes: seq<SubMix>, names: seq<u32>, n: nat)
    requires subMixes != [] && |names| == GainCount(subMixes) && n == |subMixes[0].elements|
    ensures n + 1 <= |names| && |names[n + 1..]| == GainCount(subMixes[1..])
    ensures SetParameterIds(subMixes, names) ==
            [subMixes[0].(
               elements := WithGains(subMixes[0].elements, NameGains(ElementGains(subMixes[0].elements), names[..n])),
               outputMixGain := Named(subMixes[0].outputMixGain, names[n]))]
            + SetParameterIds(subMixes[1..], names[n + 1..])
  {
    var gains := NameGains(MixGains(subMixes), names);
    assert gains[..n] == NameGains(ElementGains(subMixes[0].elements), names[..n]);
    assert gains[n + 1..] == NameGains(MixGains(subMixes[1..]), names[n + 1..]);
  }

  lemma {:induction false} LoweredFirst(s: SubMix, ids: seq<u32>, names: seq<u32>)
    requires |ids| == |s.elements| && |names| == |s.elements| + 1
    ensures var renamed := Renamed(s.elements, ids);
            LoweredOne(s, ids, names) ==
            s.(elements := WithGains(renamed, NameGains(ElementGains(renamed), names[..|s.elements|])),
               outputMixGain := Named(s.outputMixGain, names[|s.elements|]))
  {
    var renamed := Renamed(s.elements, ids);
    assert WithGains(renamed, NameGains(ElementGains(renamed), names[..|s.elements|])) ==
           LoweredOne(s, ids, names).elements;
  }

  method LowerPresentation(m: MixDeclaration, id: u32) returns (r: MixPresentation)
    requires |m.audioElements| == References(m.presentation.subMixes)
    requires |m.parameters| == GainCount(m.presentation.subMixes)
    requires forall h | h in m.audioElements :: h.index < U32_LIMIT
    requires forall h | h in m.parameters :: h.index < U32_LIMIT
    ensures r == LowerMix(m, id)
  {
    hide SetParameterIds, SetReferences, GainCount, References, LoweredOne, Lowered;
    var subMixes := m.presentation.subMixes;
    var ids, names := ElementIds(m.audioElements), ParameterIdsOf(m.parameters);
    ghost var target := Lowered(subMixes, ids, names);
    var done: seq<SubMix> := [];
    assert subMixes[0..] == subMixes && [] + target == target;
    for s := 0 to |subMixes|
      invariant |ids| == References(subMixes[s..]) && |names| == GainCount(subMixes[s..])
      invariant done + Lowered(subMixes[s..], ids, names) == target
    {
      var subMix := subMixes[s];
      var n := |subMix.elements|;
      assert subMixes[s..][0] == subMix && subMixes[s..][1..] == subMixes[s + 1..];
      LoweredCons(subMixes[s..], ids, names, n);
      var lowered := LowerSubMix(subMix, ids[..n], names[..n + 1]);
      assert done + ([lowered] + Lowered(subMixes[s + 1..], ids[n..], names[n + 1..]))
          == done + [lowered] + Lowered(subMixes[s + 1..], ids[n..], names[n + 1..]);
      done, ids, names := done + [lowered], ids[n..], names[n + 1..];
    }
    NothingLowered(ids, names);
    assert subMixes[|subMixes|..] == [] && done + [] == done;
    LowerMixIs(m, id);
    r := m.presentation.(mixPresentationId := id, subMixes := done);
  }

  lemma NothingLowered(ids: seq<u32>, names: seq<u32>)
    ensures References([]) == 0 && GainCount([]) == 0
    ensures |ids| == 0 && |names| == 0 ==> Lowered([], ids, names) == []
  {
  }

  lemma LowerMixIs(m: MixDeclaration, id: u32)
    requires |m.audioElements| == References(m.presentation.subMixes)
    requires |m.parameters| == GainCount(m.presentation.subMixes)
    requires forall h | h in m.audioElements :: h.index < U32_LIMIT
    requires forall h | h in m.parameters :: h.index < U32_LIMIT
    ensures LowerMix(m, id) ==
            m.presentation.(mixPresentationId := id,
                            subMixes := Lowered(m.presentation.subMixes, ElementIds(m.audioElements),
                                                ParameterIdsOf(m.parameters)))
  {
    hide SetReferences, SetParameterIds, References, GainCount;
  }

  method LowerSubMix(s: SubMix, ids: seq<u32>, names: seq<u32>) returns (r: SubMix)
    requires |ids| == |s.elements| && |names| == |s.elements| + 1
    ensures r == LoweredOne(s, ids, names)
  {
    var elements := s.elements;
    for i := 0 to |elements|
      invariant |elements| == |s.elements| && elements[i..] == s.elements[i..]
      invariant elements[..i] == LoweredOne(s, ids, names).elements[..i]
    {
      elements := elements[i := elements[i].(audioElementId := ids[i],
                                             mixGain := Named(elements[i].mixGain, names[i]))];
    }
    assert elements == LoweredOne(s, ids, names).elements;
    r := s.(elements := elements, outputMixGain := Named(s.outputMixGain, names[|elements|]));
  }
}
