/**
  Declarations that build: so that the theorems about builds and runs are about something, and so that what a
  build does not promise is seen to fail.
*/
module Witness {
  import opened Core
  import opened Bits
  import opened Leb128
  import opened Lists
  import opened Layouts
  import opened Obus
  import opened ParamDefinitions
  import opened ParameterBlocks
  import opened SequenceHeaders
  import opened CodecConfigs
  import opened AudioElements
  import opened MixPresentations
  import opened AudioFrames
  import opened SequenceObus
  import opened Sequences
  import opened Sorting
  import opened Parts
  import opened Streams
  import opened Profiles
  import opened Findings
  import opened Declarations
  import opened Builds
  import opened BuildRules
  import opened FrameRules
  import opened Ceilings
  import opened Rehearsals
  import opened TrimPlans
  import opened TemporalInputs
  import opened Timelines

  // ------------------------------------------------------------- the declarations

  /** What a stereo codec configuration may vary. */
  datatype Shape =
    | OpusShape(samples: u32, preSkip: u16)
    | AacShape(index: u8)
    | FlacShape(samples: u32, rate: u32, bits: u8)
    | LpcmShape(samples: u32, rate: u32, bits: u8, flags: SampleFormatFlags)
  {
    predicate Valid() {
      match this
      case OpusShape(samples, preSkip) => 0 < samples <= 96_000 && preSkip > 0
      case AacShape(index) => index <= 12
      case FlacShape(samples, rate, bits) => 16 <= samples < 0x1_0000 && 0 < rate <= 655_350 && 3 <= bits < 32
      case LpcmShape(samples, rate, bits, flags) =>
        && 0 < samples <= 96_000 && rate in {16_000, 32_000, 44_100, 48_000, 96_000} && bits in {16, 24, 32}
        && !flags.ReservedFormat?
    }

    function Samples(): u32 {
      match this
      case OpusShape(samples, _) => samples
      case AacShape(_) => 1024
      case FlacShape(samples, _, _) => samples
      case LpcmShape(samples, _, _, _) => samples
    }

    function PreSkip(): Option<u16> {
      match this
      case OpusShape(_, preSkip) => Some(preSkip)
      case _ => None
    }
  }

  type Stream = s: Shape | s.Valid() witness OpusShape(960, 1)

  /** The configuration of each codec, with the roll distance it must have. */
  function CodecOf(s: Stream): (c: CodecConfig)
    ensures c.numSamplesPerFrame == s.Samples() && c.codecConfigId == 0 && c.trailing == []
  {
    match s
    case OpusShape(samples, preSkip) =>
      OpusRollFits(samples);
      CodecConfig(0, [0x4f, 0x70, 0x75, 0x73], samples, -((3839 + samples) / samples),
                  Opus(OpusConfig(1, 2, preSkip, 48_000, 0, 0)), [])
    case AacShape(index) =>
      CodecConfig(0, [0x6d, 0x70, 0x34, 0x61], 1024, -1,
                  AacLc(AacConfig(0x40, 5, false, 0, 0, 0, 2, index, 2, false, false, false)), [])
    case FlacShape(samples, rate, bits) =>
      CodecConfig(0, [0x66, 0x4c, 0x61, 0x43], samples, 0,
                  Flac(FlacConfig(true, 0, 34, samples, samples, 0, 0, rate, 1, bits, 0, Zeros(16))), [])
    case LpcmShape(samples, rate, bits, flags) =>
      CodecConfig(0, [0x69, 0x70, 0x63, 0x6d], samples, 0, Lpcm(LpcmConfig(flags, bits, rate)), [])
  }

  lemma OpusRollFits(samples: u32)
    requires samples > 0
    ensures 0 < (3839 + samples) / samples <= 3840
  {
  }

  lemma CodecObeys(s: Stream)
    ensures CodecRules(CodecOf(s)) && 0 < Rate(CodecOf(s)) < U32_LIMIT
  {
    if s.OpusShape? {
      var n := (3839 + s.samples) / s.samples;
      assert n * s.samples + (3839 + s.samples) % s.samples == 3839 + s.samples;
      assert (n - 1) * s.samples == n * s.samples - s.samples;
    }
    RatePositive(CodecOf(s));
  }

  function RateOf(s: Stream): u32 {
    CodecObeys(s);
    Rate(CodecOf(s))
  }

  /** A gain that blocks may change: they carry their own durations. */
  function GainOf(s: Stream, id: u32): MixGainDefinition {
    MixGainDefinition(ParamDefinition(id, RateOf(s), 0, None), 0)
  }

  const LAYER: ChannelLayer := ChannelLayer(LoudspeakerLayout.Stereo, None, false, 0, 1, 1)

  const ELEMENT: AudioElement := AudioElement(0, 0, ChannelBased(0, [LAYER]), 0, [0], [], [])

  const STEREO: LayoutWithLoudness := LayoutWithLoudness(SystemLayout(A0_2_0), 0, Loudness(0, 0, None, None, None))

  function MemberOf(s: Stream, id: u32): SubMixElement {
    SubMixElement(0, [], RenderingConfig(StereoMode, 0, []), GainOf(s, id))
  }

  function SubMixOf(s: Stream, element: u32, output: u32): SubMix {
    SubMix([MemberOf(s, element)], GainOf(s, output), [STEREO])
  }

  /** The stereo element under two gains, for one stereo layout. */
  function MixOf(s: Stream, id: u32, element: u32, output: u32, trailing: seq<u8>): MixPresentation {
    MixPresentation(id, [], [], [SubMixOf(s, element, output)], trailing)
  }

  function StereoElement(g: u64): ElementDeclaration {
    ElementDeclaration(CodecConfigHandle(g, 0), [SubstreamHandle(g, 0)], ELEMENT)
  }

  function StereoMix(g: u64, s: Stream, i: nat, trailing: seq<u8>): MixDeclaration {
    MixDeclaration([AudioElementHandle(g, 0)], [ParameterHandle(g, 2 * i), ParameterHandle(g, 2 * i + 1)],
                   MixOf(s, 0, 0, 0, trailing))
  }

  function Zeros(t: nat): (r: seq<u8>)
    ensures |r| == t
  {
    seq(t, _ => 0)
  }

  /** `n` presentations of the one element; the last keeps `t` trailing bytes. */
  function StereoMixes(g: u64, s: Stream, n: nat, t: nat): (r: seq<MixDeclaration>)
    ensures |r| == n
    ensures forall i | 0 <= i < n :: r[i] == StereoMix(g, s, i, TrailingAt(n, t, i))
  {
    seq(n, i requires 0 <= i < n => StereoMix(g, s, i, TrailingAt(n, t, i)))
  }

  function TrailingAt(n: nat, t: nat, i: nat): seq<u8> {
    if i + 1 == n then Zeros(t) else []
  }

  function DeclaredGain(s: Stream): ParameterDeclaration {
    ParameterDeclaration(None, GainOf(s, 0))
  }

  function StereoDeclared(g: u64, s: Stream, n: nat, t: nat): Declared
  {
    Declared(g, [CodecOf(s)], [StereoElement(g)], StereoMixes(g, s, n, t), [None], seq(2 * n, _ => DeclaredGain(s)))
  }

  // ------------------------------------------------------------------- resolving

  lemma GainsIn(s: Stream, id: u32, element: u32, output: u32, trailing: seq<u8>)
    ensures var subMixes := MixOf(s, id, element, output, trailing).subMixes;
            && MixGains(subMixes) == [GainOf(s, element), GainOf(s, output)] && GainCount(subMixes) == 2
            && References(subMixes) == 1 && ReferencedIds(subMixes) == [0]
            && SetReferences(subMixes, [0]) == subMixes
  {
    var subMixes := MixOf(s, id, element, output, trailing).subMixes;
    assert subMixes[1..] == [];
    assert ElementGains([MemberOf(s, element)]) == [GainOf(s, element)];
    assert Renamed([MemberOf(s, element)], [0]) == [MemberOf(s, element)];
    assert [0][..1] == [0];
  }

  lemma GainsSet(s: Stream, trailing: seq<u8>, element: u32, output: u32)
    ensures GainCount(MixOf(s, 0, 0, 0, trailing).subMixes) == 2
    ensures SetGains(MixOf(s, 0, 0, 0, trailing).subMixes, [GainOf(s, element), GainOf(s, output)]) ==
            [SubMixOf(s, element, output)]
  {
    GainsIn(s, 0, 0, 0, trailing);
    var gains := [GainOf(s, element), GainOf(s, output)];
    assert MixOf(s, 0, 0, 0, trailing).subMixes[1..] == [];
    assert gains[..1] == [GainOf(s, element)] && gains[2..] == [];
    assert WithGains([MemberOf(s, 0)], [GainOf(s, element)]) == [MemberOf(s, element)];
  }

  function Taken(g: u64, m: nat): (r: seq<ParameterHandle>)
    ensures |r| == m
  {
    seq(m, (k: nat) => ParameterHandle(g, k))
  }

  lemma TakesBoth(g: u64, s: Stream, n: nat, t: nat, i: nat)
    requires i < n
    ensures var d := StereoDeclared(g, s, n, t);
            TakeHandles(d, d.mixPresentations[i].parameters, Taken(g, 2 * i)) == Ok(Taken(g, 2 * i + 2))
  {
    var d := StereoDeclared(g, s, n, t);
    var a, b, used := ParameterHandle(g, 2 * i), ParameterHandle(g, 2 * i + 1), Taken(g, 2 * i);
    assert [a, b][1..] == [b] && [b][1..] == [];
    assert used + [a] == Taken(g, 2 * i + 1) && Taken(g, 2 * i + 1) + [b] == Taken(g, 2 * i + 2);
    assert a !in used && b !in Taken(g, 2 * i + 1);
    assert TakeHandles(d, [], Taken(g, 2 * i + 2)) == Ok(Taken(g, 2 * i + 2));
    assert TakeHandles(d, [b], Taken(g, 2 * i + 1)) == Ok(Taken(g, 2 * i + 2));
  }

  lemma {:induction false} ResolvesFrom(g: u64, s: Stream, n: nat, t: nat, i: nat)
    requires i <= n
    ensures var d := StereoDeclared(g, s, n, t);
            ResolveMixes(d, d.mixPresentations[i..], Taken(g, 2 * i)) == Ok((d.mixPresentations[i..], Taken(g, 2 * n)))
    decreases n - i
  {
    hide SetGains, GainCount, TakeHandles;
    var d := StereoDeclared(g, s, n, t);
    if i < n {
      var m := d.mixPresentations[i];
      GainsSet(s, m.presentation.trailing, 0, 0);
      TakesBoth(g, s, n, t, i);
      assert GainsOf(d, m.parameters) == [GainOf(s, 0), GainOf(s, 0)];
      assert ResolveMix(d, m) == m;
      ResolvesFrom(g, s, n, t, i + 1);
      assert d.mixPresentations[i..][1..] == d.mixPresentations[i + 1..];
      assert [m] + d.mixPresentations[i + 1..] == d.mixPresentations[i..];
    }
  }

  lemma Resolves(g: u64, s: Stream, n: nat, t: nat)
    ensures ResolveReferences(StereoDeclared(g, s, n, t)) == Ok(StereoDeclared(g, s, n, t))
  {
    hide ResolveMixes;
    var d := StereoDeclared(g, s, n, t);
    ResolvesFrom(g, s, n, t, 0);
    assert d.mixPresentations[0..] == d.mixPresentations && Taken(g, 0) == [];
  }

  // ------------------------------------------------------------------ validating

  lemma {:induction false} NoImplicitIds(ids: seq<Option<u32>>)
    requires forall i | 0 <= i < |ids| :: ids[i] == None
    ensures CheckImplicitIds(ids, []).Ok?
  {
    if ids != [] {
      NoImplicitIds(ids[1..]);
    }
  }

  lemma CodecPasses(s: Stream)
    ensures CheckCodec(CodecOf(s)).Ok? && OutputSampleRate(CodecOf(s)) == Some(RateOf(s))
  {
    hide CodecRules, Rate;
    CodecObeys(s);
    CodecChecked(CodecOf(s));
    RateIs(CodecOf(s));
  }

  lemma Alone(g: u64, s: Stream, n: nat, t: nat)
    ensures var d := StereoDeclared(g, s, n, t);
            && CheckImplicitIds(d.substreams, []).Ok? && CheckImplicitIds(ImplicitIds(d.parameters), []).Ok?
            && (forall i | 0 <= i < |d.parameters| :: CheckParameter(d.parameters[i]).Ok?)
            && CheckCodec(CodecOf(s)).Ok? && CheckTimings(d).Ok?
  {
    hide CheckCodec, CodecOf, CheckImplicitIds;
    var d := StereoDeclared(g, s, n, t);
    NoImplicitIds(d.substreams);
    NoImplicitIds(ImplicitIds(d.parameters));
    CodecPasses(s);
    CodecObeys(s);
  }

  lemma ElementPasses(g: u64, s: Stream, n: nat, t: nat)
    ensures CheckElement(StereoDeclared(g, s, n, t), StereoElement(g)).Ok?
  {
    var d, e := StereoDeclared(g, s, n, t), StereoElement(g);
    assert CheckTopology(ELEMENT).Ok?;
    assert [LAYER][1..] == [];
    assert LayerClean(LAYER) && DeclaredSubstreamCount([LAYER]) == 1;
    assert ElementClean(ELEMENT);
    assert SharedAlike(d, e, 0);
    assert CheckSubstreams(d, e, 1) == Ok(());
    assert e.substreams[..0] == [];
    assert CheckSubstreams(d, e, 0) == Ok(());
  }

  lemma MixPasses(g: u64, s: Stream, n: nat, t: nat, i: nat)
    requires i < n
    ensures var d := StereoDeclared(g, s, n, t); CheckMix(d, d.mixPresentations[i]).Ok?
  {
    hide GainCount, MixGains, SetReferences, References, ReferencedIds;
    var d := StereoDeclared(g, s, n, t);
    var m := d.mixPresentations[i];
    GainsIn(s, 0, 0, 0, m.presentation.trailing);
    assert ElementIds(m.audioElements) == [0];
    var subMix := SubMixOf(s, 0, 0);
    assert HasStereoLayout(subMix) by {
      assert subMix.layouts[0].layout == SystemLayout(A0_2_0);
    }
    assert SubMixClean(subMix, 0);
    assert MixClean(m.presentation);
    assert CheckReferences(d, m).Ok?;
    assert CheckAll([subMix], (s: SubMix) => CheckAll(s.layouts, CheckLayout)).Ok?;
  }

  // --------------------------------------------------------------- the rehearsal

  lemma CodecBody(s: Stream)
    ensures var body := WCodecBody([], CodecOf(s)); body.Ok? && |body.value| % 8 == 0 && |body.value| <= 8 * 52
  {
    hide WLeb, WBytes, WI16, WDecoderConfig, CodecOf;
    var c := CodecOf(s);
    var head := WI16(WLeb(WBytes(WLeb([], 0), c.codecId), c.numSamplesPerFrame), c.audioRollDistance);
    assert |head| % 8 == 0 && |head| <= 8 * 14 by { HeadLength(c); }
    DecoderBody(head, s);
  }

  lemma HeadLength(c: CodecConfig)
    requires c.codecConfigId == 0
    ensures var head := WI16(WLeb(WBytes(WLeb([], 0), c.codecId), c.numSamplesPerFrame), c.audioRollDistance);
            |head| % 8 == 0 && |head| <= 8 * 14
  {
    hide WLeb, WBytes, WI16;
  }

  /** Each decoder config takes its own fixed number of bytes. */
  lemma DecoderBody(w: BitSeq, s: Stream)
    ensures var body := WDecoderConfig(w, CodecOf(s).decoderConfig);
            && body.Ok?
            && |body.value| == |w| + 8 * match s case OpusShape(_, _) => 11 case AacShape(_) => 19
                                                 case FlacShape(_, _, _) => 38 case LpcmShape(_, _, _, _) => 6
  {
    hide WU, WBool, WI16, WBytes, Pow2, BitsOf;
    PowersOfTwo();
    assert Pow2(2) == 4 && Pow2(20) == 0x10_0000 && Pow2(24) == 0x100_0000 by { MorePowers(); }
    Pow36();
  }

  lemma MorePowers()
    ensures Pow2(2) == 4 && Pow2(20) == 0x10_0000 && Pow2(24) == 0x100_0000
  {
    assert Pow2(8) == 0x100;
    assert Pow2(12) == 0x1000;
    assert Pow2(16) == 0x1_0000;
  }

  lemma OneItem<T>(w: BitSeq, x: T, wr: ItemWriter<T>)
    requires wr(w, x).Ok?
    ensures WMany(w, [x], 0, wr) == wr(w, x)
  {
    assert WMany(wr(w, x).value, [x], 1, wr) == wr(w, x);
  }

  lemma NoItem<T>(w: BitSeq, wr: ItemWriter<T>)
    ensures WMany(w, [], 0, wr) == Ok(w)
  {
  }

  lemma LayerBody(w: BitSeq)
    ensures WScalable(w, 0, [LAYER]).Ok? && |WScalable(w, 0, [LAYER]).value| == |w| + 32
  {
    hide WU, Pow2, WMany;
    PowersOfTwo();
    var head := WU(WU(w, 1, 3).value, 0, 5).value;
    OneItem(head, LAYER, WChannelLayer);
  }

  lemma ElementBody()
    ensures WElementBody([], ELEMENT).Ok? && |WElementBody([], ELEMENT).value| == 8 * 10
  {
    hide WLeb, WU, Pow2, WMany, WScalable;
    PowersOfTwo();
    var a := WU(WU(WLeb([], 0), 0, 3).value, 0, 5).value;
    var b := WLeb(WLeb(a, 0), 1);
    OneItem<u32>(b, 0, WLebItem);
    var c := WLeb(WLeb(b, 0), 0);
    NoItem(c, WElementParam);
    LayerBody(c);
  }

  /** How many bytes the rate of a gain takes. */
  function RateBytes(s: Stream): (n: nat)
    ensures 1 <= n <= 3
    ensures RateOf(s) >= 0x4000 ==> n == 3
  {
    RateBelow(s);
    MinimalLen(RateOf(s))
  }

  lemma RateBelow(s: Stream)
    ensures RateOf(s) <= 655_350
  {
    hide Pow2;
    if s.AacShape? {
      AacRates(s.index);
    }
  }

  lemma GainBody(s: Stream, w: BitSeq)
    ensures WMixGainDefinition(w, GainOf(s, 0)).Ok?
    ensures |WMixGainDefinition(w, GainOf(s, 0)).value| == |w| + 32 + 8 * RateBytes(s)
  {
    hide WLeb, WU, WBool, WI16, Pow2, RateOf;
    PowersOfTwo();
  }

  lemma MemberBody(s: Stream, w: BitSeq)
    ensures WSubMixElement(w, MemberOf(s, 0)).Ok?
    ensures |WSubMixElement(w, MemberOf(s, 0)).value| == |w| + 56 + 8 * RateBytes(s)
  {
    hide WLeb, WU, Pow2, WMany, WMixGainDefinition, BytesBits;
    PowersOfTwo();
    var a := WLeb(w, 0);
    NoItem(a, WString);
    var b := WLeb(WU(WU(a, 0, 2).value, 0, 6).value, 0);
    NothingAppended(b);
    GainBody(s, b);
  }

  lemma LayoutBody(w: BitSeq)
    ensures WMixLayout(w, STEREO).Ok? && |WMixLayout(w, STEREO).value| == |w| + 48
  {
    hide WU, WI16, Pow2;
    PowersOfTwo();
    assert Pow2(2) == 2 * Pow2(1) by { Four(); }
  }

  lemma Four()
    ensures Pow2(2) == 2 * Pow2(1)
  {
  }

  lemma SubMixBody(s: Stream, w: BitSeq)
    ensures WSubMix(w, SubMixOf(s, 0, 0)).Ok? && |WSubMix(w, SubMixOf(s, 0, 0)).value| == |w| + 152 + 16 * RateBytes(s)
  {
    hide WLeb, WMany, WSubMixElement, WMixGainDefinition, WMixLayout;
    var a := WLeb(w, 1);
    MemberBody(s, a);
    OneItem(a, MemberOf(s, 0), WSubMixElement);
    var b := WSubMixElement(a, MemberOf(s, 0)).value;
    GainBody(s, b);
    var c := WLeb(WMixGainDefinition(b, GainOf(s, 0)).value, 1);
    LayoutBody(c);
    OneItem(c, STEREO, WMixLayout);
  }

  lemma MixBody(s: Stream, trailing: seq<u8>)
    ensures var body := WMixBody([], MixOf(s, 0, 0, 0, trailing));
            body.Ok? && |body.value| == 8 * (22 + 2 * RateBytes(s))
  {
    hide WLeb, WMany, WSubMix, WString;
    var a := WLeb(WLeb([], 0), 0);
    NoItem(a, WString);
    var b := WLeb(a, 1);
    SubMixBody(s, b);
    OneItem(b, SubMixOf(s, 0, 0), WSubMix);
  }

  /** The sizes the rehearsal sees. */
  lemma RehearsedSizes(s: Stream, trailing: seq<u8>)
    ensures CodecBytes(CodecOf(s)) <= 52 && ElementBytes(ELEMENT) == 10
    ensures MixBytes(MixOf(s, 0, 0, 0, trailing)) == 22 + 2 * RateBytes(s) + |trailing|
    ensures WritesAlone(FlatCodec(CodecOf(s))) && WritesAlone(FlatElement(ELEMENT))
    ensures |trailing| <= 2_097_120 ==> WritesAlone(FlatMix(MixOf(s, 0, 0, 0, trailing)))
  {
    hide WObuWith, WCodecBody, WElementBody, WMixBody;
    CodecBody(s);
    ElementBody();
    MixBody(s, trailing);
    FramedDecides(CodecConfigObu, WCodecBody([], CodecOf(s)), []);
    FramedDecides(AudioElementObu, WElementBody([], ELEMENT), []);
    MixBody(s, []);
    FramedDecides(MixPresentationObu, WMixBody([], MixOf(s, 0, 0, 0, [])), trailing);
  }

  lemma TemplateWrites(g: u64, s: Stream, n: nat, t: nat)
    requires t <= 2_097_120
    ensures WAll([], [], FlatDescriptors(Template(StereoDeclared(g, s, n, t)))).Ok?
  {
    hide WAll, FlatDescriptors, WritesAlone, FlatCodec, FlatElement, FlatMix, FlatHeader, CodecBytes, ElementBytes,
         MixBytes;
    var d := StereoDeclared(g, s, n, t);
    RehearsedSizes(s, []);
    RehearsedSizes(s, Zeros(t));
    HeaderDecides(0);
    assert WritesAlone(FlatHeader(IaSequenceHeader(IA_CODE, 0, 0, []))) by { HeaderAlone(); }
    PrologueEach(Template(d));
  }

  lemma HeaderAlone()
    ensures WritesAlone(FlatHeader(IaSequenceHeader(IA_CODE, 0, 0, [])))
  {
    HeaderDecides(0);
  }

  lemma {:induction false} OnlyGains(s: Stream, registry: Registry, mixes: seq<MixPresentation>)
    requires forall r | r in registry :: r.definition == GainOf(s, 0).definition
    requires forall i | 0 <= i < |mixes| :: mixes[i] == MixOf(s, 0, 0, 0, mixes[i].trailing)
    ensures forall r | r in ObserveMixes(registry, mixes) :: r.definition == GainOf(s, 0).definition
    decreases |mixes|
  {
    hide MixDefinitions;
    if mixes != [] {
      MixDefinitionsAreGains(mixes[0].subMixes);
      GainsIn(s, 0, 0, 0, mixes[0].trailing);
      OnlyGains(s, ObserveMix(registry, mixes[0]), mixes[1..]);
    }
  }

  lemma OneSorted<T>(x: T, key: T -> u32)
    ensures Sorted([x], key) == [x]
  {
  }

  lemma TemplateGains(g: u64, s: Stream, n: nat, t: nat)
    ensures CheckAll(FromDescriptors(Template(StereoDeclared(g, s, n, t))),
                     (r: Registered) => CheckDefinition(r.definition)).Ok?
  {
    hide ObserveMixes;
    var d := StereoDeclared(g, s, n, t);
    assert Elements(d.audioElements) == [ELEMENT];
    OneSorted(ELEMENT, (e: AudioElement) => e.audioElementId);
    NoElementParameters([], [ELEMENT]);
    OnlyGains(s, [], Presentations(d.mixPresentations));
    forall r | r in FromDescriptors(Template(d)) ensures CheckDefinition(r.definition).Ok? {
    }
  }

  lemma Together(g: u64, s: Stream, n: nat, t: nat)
    requires n > 0 && t <= 2_097_120
    ensures CheckTogether(StereoDeclared(g, s, n, t)).Ok?
  {
    hide WAll, FlatDescriptors, FromDescriptors, CheckDefinition;
    var d := StereoDeclared(g, s, n, t);
    TemplateWrites(g, s, n, t);
    TemplateGains(g, s, n, t);
    assert d.audioElements[0].substreams[0].index == 0;
    assert SubstreamUsed(d, 0);
  }

  lemma Validates(g: u64, s: Stream, n: nat, t: nat)
    requires n > 0 && t <= 2_097_120
    ensures ValidateDeclarations(StereoDeclared(g, s, n, t)).Ok?
  {
    hide CheckImplicitIds, ImplicitIds, CheckParameter, CheckCodec, CheckTimings, CheckElement, CheckMix, CheckTogether;
    hide CodecOf;
    var d := StereoDeclared(g, s, n, t);
    Alone(g, s, n, t);
    ElementPasses(g, s, n, t);
    forall i | 0 <= i < |d.mixPresentations| ensures CheckMix(d, d.mixPresentations[i]).Ok? {
      MixPasses(g, s, n, t, i);
    }
    Together(g, s, n, t);
  }

  // -------------------------------------------------------------------- building

  /** The presentation at place `i` once lowered: its own id, and those of its two gains. */
  function LoweredMix(s: Stream, i: nat, trailing: seq<u8>): MixPresentation
    requires 2 * i + 1 < U32_LIMIT
  {
    MixOf(s, i, 2 * i, 2 * i + 1, trailing)
  }

  function LoweredSet(s: Stream, n: nat, t: nat): DescriptorSet
    requires 2 * n <= U32_LIMIT
  {
    DescriptorSet(
      IaSequenceHeader(IA_CODE, 0, 0, []), [CodecOf(s)], [ELEMENT],
      seq(n, i requires 0 <= i < n => LoweredMix(s, i, TrailingAt(n, t, i))))
  }

  lemma MixLowers(g: u64, s: Stream, i: nat, trailing: seq<u8>)
    requires 2 * i + 1 < U32_LIMIT
    ensures var m := StereoMix(g, s, i, trailing);
            && |m.audioElements| == References(m.presentation.subMixes)
            && |m.parameters| == GainCount(m.presentation.subMixes)
            && LowerMix(m, i) == LoweredMix(s, i, trailing)
  {
    hide SetGains, SetReferences, MixGains, GainCount, References;
    var m := StereoMix(g, s, i, trailing);
    GainsIn(s, 0, 0, 0, trailing);
    GainsSet(s, trailing, 2 * i, 2 * i + 1);
    assert ElementIds(m.audioElements) == [0];
    assert ParameterIdsOf(m.parameters) == [2 * i, 2 * i + 1];
    assert NameGains([GainOf(s, 0), GainOf(s, 0)], [2 * i, 2 * i + 1]) == [GainOf(s, 2 * i), GainOf(s, 2 * i + 1)];
  }

  lemma Lowers(g: u64, s: Stream, n: nat, t: nat)
    requires 2 * n <= U32_LIMIT
    ensures var d := StereoDeclared(g, s, n, t);
            && Allocatable(d) && HandlesResolve(d) && DescriptorsOf(d, Simple) == LoweredSet(s, n, t)
            && LowerElements(d) == [ELEMENT] && LowerMixes(d) == LoweredSet(s, n, t).mixPresentations
  {
    hide LowerMix, GainCount, References, CodecOf, LoweredMix, StereoMix;
    var d := StereoDeclared(g, s, n, t);
    forall i | 0 <= i < n
      ensures HandlesOfMix(d, i) && LowerMix(d.mixPresentations[i], i) == LoweredMix(s, i, TrailingAt(n, t, i))
    {
      MixLowers(g, s, i, TrailingAt(n, t, i));
      MixHandles(g, s, n, t, i);
    }
    assert SubstreamIdsOf(StereoElement(g).substreams) == [0];
    assert forall k | 0 <= k < n :: HandlesOfMix(d, k);
    assert HandlesResolve(d);
    assert LowerElements(d) == [ELEMENT];
    assert LowerMixes(d) == LoweredSet(s, n, t).mixPresentations;
    assert LowerCodecs(d.codecConfigs) == [CodecOf(s)] by {
      CodecKeepsId(s);
    }
  }

  lemma CodecKeepsId(s: Stream)
    ensures CodecOf(s).(codecConfigId := 0) == CodecOf(s)
  {
  }

  predicate HandlesOfMix(d: Declared, i: nat)
    requires i < |d.mixPresentations|
  {
    var m := d.mixPresentations[i];
    && |m.audioElements| == References(m.presentation.subMixes)
    && |m.parameters| == GainCount(m.presentation.subMixes)
    && (forall h | h in m.audioElements :: h.index < |d.audioElements|)
    && forall h | h in m.parameters :: h.index < |d.parameters|
  }

  lemma MixHandles(g: u64, s: Stream, n: nat, t: nat, i: nat)
    requires i < n
    ensures HandlesOfMix(StereoDeclared(g, s, n, t), i)
  {
    hide GainCount, References, MixGains;
    GainsIn(s, 0, 0, 0, TrailingAt(n, t, i));
  }

  lemma OneStereo()
    ensures TotalChannelCount([ELEMENT]) == Ok(2) && Count([ELEMENT], IsExpandedFirstLayer) == 0
  {
    assert [ELEMENT][..0] == [];
    assert Channels(ELEMENT) == Some(2);
  }

  lemma SequenceIsSimple()
    ensures SequenceFloor([ELEMENT]) == Ok(Simple)
  {
    assert [ELEMENT][..0] == [] && [] + [ELEMENT] == [ELEMENT];
    OneStereo();
    assert UniqueById([ELEMENT]) == [ELEMENT];
  }

  lemma MixIsSimple(s: Stream, id: u32, element: u32, output: u32, trailing: seq<u8>)
    ensures PresentationMinimumProfile(MixOf(s, id, element, output, trailing), [ELEMENT]) == Ok(Simple)
  {
    hide TotalChannelCount, Count;
    var members := [MemberOf(s, element)];
    assert members[..0] == [] && [] + [ELEMENT] == [ELEMENT];
    OneStereo();
    assert FindElement([ELEMENT], 0) == Some(ELEMENT);
    assert Resolve([], [ELEMENT]) == Ok([]);
    assert Resolve(members, [ELEMENT]) == Ok([ELEMENT]);
    assert PresentationFloor([ELEMENT]) == Ok(Simple);
  }

  lemma {:induction false} SimpleSuffices(mixes: seq<MixPresentation>)
    requires forall i | 0 <= i < |mixes| :: PresentationMinimumProfile(mixes[i], [ELEMENT]) == Ok(Simple)
    ensures SequenceProfile([ELEMENT], mixes) == Ok(Simple)
    decreases |mixes|
  {
    hide SequenceFloor, PresentationMinimumProfile;
    if mixes == [] {
      SequenceIsSimple();
    } else {
      SimpleSuffices(mixes[..|mixes| - 1]);
    }
  }

  lemma StereoBuilds(g: u64, s: Stream, n: nat, t: nat)
    requires 0 < n && 2 * n <= U32_LIMIT && t <= 2_097_120
    ensures var d := StereoDeclared(g, s, n, t);
            Build(d).Ok? && Build(d).value.0 == Encoder(LoweredSet(s, n, t), g)
  {
    hide ResolveReferences, ValidateDeclarations, DescriptorsOf, Manifest, LowerElements, LowerMixes, SequenceProfile;
    hide CodecOf, PresentationMinimumProfile;
    var d := StereoDeclared(g, s, n, t);
    Resolves(g, s, n, t);
    ResolvedKnows(d);
    Validates(g, s, n, t);
    Lowers(g, s, n, t);
    var mixes := LoweredSet(s, n, t).mixPresentations;
    forall i | 0 <= i < n ensures PresentationMinimumProfile(mixes[i], [ELEMENT]) == Ok(Simple) {
      MixIsSimple(s, i, 2 * i, 2 * i + 1, TrailingAt(n, t, i));
    }
    SimpleSuffices(mixes);
  }

  // ------------------------------------------------ a build that cannot be started

  lemma IdBytesOf(s: Stream, i: nat, trailing: seq<u8>)
    requires 2 * i + 1 < U32_LIMIT
    ensures MixIdBytes(LoweredMix(s, i, trailing)) == MinimalLen(i) + 1 + MinimalLen(2 * i) + MinimalLen(2 * i + 1)
    ensures MixIdBytes(MixOf(s, 0, 0, 0, trailing)) == 4
  {
    hide MinimalLen;
    OneTotal(LoweredMix(s, i, trailing).subMixes);
    OneTotal(MixOf(s, 0, 0, 0, trailing).subMixes);
    OneMember(MemberOf(s, 2 * i));
    OneMember(MemberOf(s, 0));
    assert MinimalLen(0) == 1 by { LeastLen(); }
  }

  lemma LeastLen()
    ensures MinimalLen(0) == 1
  {
  }

  lemma OneMember(v: SubMixElement)
    ensures Total([v], MemberIdBytes) == MemberIdBytes(v)
  {
    assert [v][1..] == [];
  }

  lemma SizeOfPlace(s: Stream, i: nat, t: nat)
    requires i < 65 && RateOf(s) >= 0x4000
    ensures var trailing := TrailingAt(65, t, i);
            var grown := 22 + 2 * RateBytes(s) + |trailing| + MixIdBytes(LoweredMix(s, i, trailing)) - 4;
            Fits(grown) <==> (i == 64 ==> t <= 2_097_118)
  {
    IdBytesOf(s, i, TrailingAt(65, t, i));
  }

  /**
    The ids of 65 presentations of two gains reach 129, which takes two bytes where the template's zero took
    one. So with 2097119 or 2097120 trailing bytes in the last of them the build succeeds, because the
    rehearsal just fits, and the prologue of what was built is over the ceiling. (Rates from 16384 on take the
    three bytes that these numbers count with.)
  */
  lemma StartMayFail(g: u64, s: Stream, t: nat)
    requires t <= 2_097_120 && RateOf(s) >= 0x4000
    ensures var d := StereoDeclared(g, s, 65, t);
            && Build(d).Ok?
            && var prologue := WAll([], [], FlatDescriptors(Build(d).value.0.descriptors));
               if t <= 2_097_118 then prologue.Ok? else prologue == Err(ObuTooLarge)
  {
    hide Build, WAll, FlatDescriptors, NoIdGrows, ResolveReferences, Fits, MixIdBytes, MixBytes, LoweredMix, CodecOf;
    hide CodecBytes, ElementBytes, CodecIdBytes, ElementIdBytes, StartFits;
    var d := StereoDeclared(g, s, 65, t);
    StereoBuilds(g, s, 65, t);
    Resolves(g, s, 65, t);
    var _ := StartIsTheCeiling(d);
    FitsAtPlaces(g, s, t);
  }

  predicate PlaceFits(v: MixPresentation, u: MixPresentation) {
    Fits(MixBytes(v) + MixIdBytes(u) - MixIdBytes(v))
  }

  lemma FitsAtPlace(s: Stream, i: nat, t: nat)
    requires i < 65 && RateOf(s) >= 0x4000
    ensures var trailing := TrailingAt(65, t, i);
            PlaceFits(MixOf(s, 0, 0, 0, trailing), LoweredMix(s, i, trailing)) <==> (i == 64 ==> t <= 2_097_118)
  {
    hide Fits, MixIdBytes, MixBytes, LoweredMix, CodecOf, CodecBytes, ElementBytes, WritesAlone;
    RehearsedSizes(s, TrailingAt(65, t, i));
    IdBytesOf(s, i, TrailingAt(65, t, i));
    SizeOfPlace(s, i, t);
  }

  lemma FitsAtPlaces(g: u64, s: Stream, t: nat)
    requires RateOf(s) >= 0x4000
    ensures StartFits(StereoDeclared(g, s, 65, t), LoweredSet(s, 65, t)) <==> t <= 2_097_118
  {
    hide Fits, MixIdBytes, MixBytes, LoweredMix, CodecOf, CodecBytes, ElementBytes, CodecIdBytes, ElementIdBytes;
    hide TrailingAt;
    var d, set_ := StereoDeclared(g, s, 65, t), LoweredSet(s, 65, t);
    SmallOnes(s);
    forall i | 0 <= i < 65
      ensures PlaceFits(d.mixPresentations[i].presentation, set_.mixPresentations[i]) <==> (i == 64 ==> t <= 2_097_118)
    {
      FitsAtPlace(s, i, t);
    }
    if StartFits(d, set_) {
      var v := d.mixPresentations[64].presentation;
      assert Fits(MixBytes(v) + MixIdBytes(set_.mixPresentations[64]) - MixIdBytes(v));
      assert PlaceFits(v, set_.mixPresentations[64]);
    }
    if t <= 2_097_118 {
      forall i | 0 <= i < 65
        ensures var v := d.mixPresentations[i].presentation;
                Fits(MixBytes(v) + MixIdBytes(set_.mixPresentations[i]) - MixIdBytes(v))
      {
        assert PlaceFits(d.mixPresentations[i].presentation, set_.mixPresentations[i]);
      }
    }
  }

  lemma SmallOnes(s: Stream)
    ensures Fits(CodecBytes(CodecOf(s)) + CodecIdBytes(CodecOf(s)) - CodecIdBytes(CodecOf(s)))
    ensures Fits(ElementBytes(ELEMENT) + ElementIdBytes(ELEMENT) - ElementIdBytes(ELEMENT))
  {
    hide CodecBytes, ElementBytes, CodecIdBytes, ElementIdBytes, WritesAlone;
    RehearsedSizes(s, []);
  }

  // --------------------------------------------------------------------- running

  /** One presentation and nothing trailing. */
  function StereoEncoder(g: u64, s: Stream): Encoder
  {
    Encoder(LoweredSet(s, 1, 0), g)
  }

  /** A ramp over the whole frame, for the parameter `id`. */
  function Ramp(s: Stream, id: u32): ParameterBlock {
    ParameterBlock(id, Some(BlockDurationFields(s.Samples(), s.Samples())),
                   [Subblock(None, MixGain(LinearGain(0, -256)))])
  }

  /** An access unit of each codec; for LPCM, two channels of silence. */
  function AccessUnit(s: Stream): FrameInput {
    match s
    case OpusShape(_, _) => OpusInput([0])
    case AacShape(_) => AacLcInput([0])
    case FlacShape(_, _, _) => FlacInput([0])
    case LpcmShape(samples, _, bits, _) => LpcmInput(Zeros(samples * 2 * (bits / 8)))
  }

  /** One access unit of the one substream and a block for either gain, under `trim`. */
  function Input(g: u64, s: Stream, trim: Option<Trimming>): TemporalUnitInput {
    TemporalUnitInput(
      [(SubstreamHandle(g, 0), AccessUnit(s))],
      [SubmittedBlock(ParameterHandle(g, 0), Ramp(s, 0)), SubmittedBlock(ParameterHandle(g, 1), Ramp(s, 1))], trim)
  }

  function UnitOf(s: Stream, trim: Option<Trimming>): TemporalUnit {
    TemporalUnit(false, [BlockObu(Ramp(s, 0)), BlockObu(Ramp(s, 1))],
                 [IntoObu(AudioFrame(0, AccessUnit(s).bytes), trim)])
  }

  function Inputs(g: u64, s: Stream, plan: seq<Option<Trimming>>): (r: seq<TemporalUnitInput>)
    ensures |r| == |plan| && forall i | 0 <= i < |plan| :: r[i] == Input(g, s, plan[i])
  {
    seq(|plan|, i requires 0 <= i < |plan| => Input(g, s, plan[i]))
  }

  lemma OneSubstream(g: u64, s: Stream)
    ensures DeclaredSubstreams(StereoEncoder(g, s)) == [0]
    ensures SubstreamPlan([CodecOf(s)], [ELEMENT], 0) == Ok((CodecOf(s), 2))
  {
    var ids := ELEMENT.audioSubstreamIds;
    assert [ELEMENT][1..] == [] && ids[1..] == [] && [] + [ids[0]] == ids;
    assert AddNew(ids, []) == ids;
    assert AddNew([], ids) == ids;
    assert SubstreamsFrom([], ids) == ids;
  }

  lemma UnitPasses(s: Stream)
    ensures CheckFrame(CodecOf(s), 2, AccessUnit(s)) == Ok(()) && |AccessUnit(s).bytes| <= 768_000
  {
    if s.LpcmShape? {
      var size: nat := s.bits / 8;
      Multiple(s.samples * 2, size);
      assert s.samples * 2 * size <= s.samples * 8 by {
        assert size == 2 || size == 3 || size == 4;
      }
    }
  }

  lemma FramePasses(g: u64, s: Stream, trim: Option<Trimming>)
    requires CheckFits(trim, s.Samples()).Ok?
    ensures LowerFrames(StereoEncoder(g, s), Input(g, s, trim), [0], 0) ==
            Ok([IntoObu(AudioFrame(0, AccessUnit(s).bytes), trim)])
  {
    hide DeclaredSubstreams, SubstreamPlan, IntoObu, CheckFits, Ramp, CheckFrame, CodecOf;
    var e, input := StereoEncoder(g, s), Input(g, s, trim);
    var frame := IntoObu(AudioFrame(0, AccessUnit(s).bytes), trim);
    OneSubstream(g, s);
    UnitPasses(s);
    assert LowerFrame(e, input.frames[0], 0, trim) == Ok(frame);
    assert LowerFrames(e, input, [0], 1) == Ok([]);
    assert [frame] + [] == [frame];
  }

  lemma Registry(s: Stream)
    ensures FromDescriptors(LoweredSet(s, 1, 0)) == Definitions([GainOf(s, 0), GainOf(s, 1)])
  {
    hide MixDefinitions, Definitions, CodecOf;
    var mixes := LoweredSet(s, 1, 0).mixPresentations;
    OneSorted(ELEMENT, (e: AudioElement) => e.audioElementId);
    NoElementParameters([], [ELEMENT]);
    assert mixes == [LoweredMix(s, 0, TrailingAt(1, 0, 0))] && mixes[1..] == [];
    assert ObserveMixes([], mixes) == ObserveMixes(ObserveMix([], mixes[0]), []);
    MixDefinitionsAreGains(mixes[0].subMixes);
    GainsIn(s, 0, 0, 1, TrailingAt(1, 0, 0));
    assert [] + Definitions([GainOf(s, 0), GainOf(s, 1)]) == Definitions([GainOf(s, 0), GainOf(s, 1)]);
  }

  lemma Governs(s: Stream, id: u32)
    requires id < 2
    ensures Get(Definitions([GainOf(s, 0), GainOf(s, 1)]), id) ==
            Some(Registered(GainOf(s, id).definition, MixGainContext))
  {
    var d := Definitions([GainOf(s, 0), GainOf(s, 1)]);
    assert d[1..] == [Registered(GainOf(s, 1).definition, MixGainContext)];
  }

  lemma RampIsValid(s: Stream, id: u32)
    ensures ValidateParameterBlock(GainOf(s, id).definition, MixGainContext, Ramp(s, id)).Ok?
  {
    assert s.Samples() % s.Samples() == 0 && s.Samples() / s.Samples() == 1;
    assert ImpliedSubblocks(s.Samples(), s.Samples()) == Ok(1);
  }

  lemma RampWrites(s: Stream, id: u32)
    requires id < 2
    ensures var r := WParameterBlock([], GainOf(s, id).definition, MixGainContext, Ramp(s, id));
            r.Ok? && |r.value| <= 8 * 21
  {
    hide WLeb, WI16, ValidateParameterBlock, WMany;
    RampIsValid(s, id);
    var head := WBlockHead([], Ramp(s, id));
    var subblock := Ramp(s, id).subblocks[0];
    OneItem(head, subblock, SubblockWriter(MixGainContext));
  }

  lemma BlocksPass(g: u64, s: Stream, definitions: Registry)
    requires definitions == Definitions([GainOf(s, 0), GainOf(s, 1)])
    ensures CheckBlocks(StereoEncoder(g, s), definitions, Input(g, s, None).parameterBlocks, []) == Ok([0, 1])
  {
    hide WParameterBlock, Definitions, CodecOf;
    var e, blocks := StereoEncoder(g, s), Input(g, s, None).parameterBlocks;
    BlockPasses(g, s, definitions, 0, []);
    BlockPasses(g, s, definitions, 1, [0]);
    assert blocks[1..] == [blocks[1]] && blocks[1..][1..] == [];
    assert [] + [0] == [0] && [0] + [1] == [0, 1];
    assert CheckBlocks(e, definitions, [], [0, 1]) == Ok([0, 1]);
    assert CheckBlocks(e, definitions, [blocks[1]], [0]) == Ok([0, 1]);
  }

  lemma BlockPasses(g: u64, s: Stream, definitions: Registry, id: u32, seen: seq<u32>)
    requires definitions == Definitions([GainOf(s, 0), GainOf(s, 1)]) && id < 2 && id !in seen
    ensures var block := SubmittedBlock(ParameterHandle(g, id), Ramp(s, id));
            CheckBlock(StereoEncoder(g, s), definitions, block, seen) == Ok(id)
  {
    hide WParameterBlock, Definitions, CodecOf;
    Governs(s, id);
    RampWrites(s, id);
    assert FrameSize(StereoEncoder(g, s)) == Some(s.Samples()) by { FrameIsSamples(g, s); }
  }

  lemma FrameIsSamples(g: u64, s: Stream)
    ensures FrameSize(StereoEncoder(g, s)) == Some(s.Samples()) && OpusPreSkip(StereoEncoder(g, s)) == s.PreSkip()
  {
  }

  /** Accepted whenever the trims allow it. */
  lemma InputAccepted(g: u64, s: Stream, p: Progress, trim: Option<Trimming>)
    requires CheckFits(trim, s.Samples()).Ok?
    requires StepTrim(Some(s.Samples()), s.PreSkip(), p.trims, trim).Ok?
    requires p.parameterIds == None || p.parameterIds == Some([0, 1])
    ensures Preflight(StereoEncoder(g, s), p, Input(g, s, trim)) ==
            Ok((UnitOf(s, trim),
                Progress(Some([0, 1]), StepTrim(Some(s.Samples()), s.PreSkip(), p.trims, trim).value)))
  {
    hide LowerFrames, DeclaredSubstreams, FromDescriptors, StepTrim, CheckFits, CheckBlocks, IntoObu, Ramp, LoweredSet;
    OneSubstream(g, s);
    FramePasses(g, s, trim);
    Registry(s);
    BlocksPass(g, s, FromDescriptors(LoweredSet(s, 1, 0)));
    FrameIsSamples(g, s);
    var blocks := Input(g, s, trim).parameterBlocks;
    assert BlockObus(blocks) == [BlockObu(Ramp(s, 0)), BlockObu(Ramp(s, 1))];
  }

  lemma {:induction false} PlanAccepted(g: u64, s: Stream, plan: seq<Option<Trimming>>)
    requires RunTrims(s.Samples(), s.PreSkip(), plan).Ok?
    ensures var r := AcceptAll(StereoEncoder(g, s), Inputs(g, s, plan));
            && r.Ok? && |r.value.0| == |plan| && (forall i | 0 <= i < |plan| :: r.value.0[i] == UnitOf(s, plan[i]))
            && r.value.1.trims == RunTrims(s.Samples(), s.PreSkip(), plan).value
            && (r.value.1.parameterIds == None || r.value.1.parameterIds == Some([0, 1]))
  {
    hide Preflight, StepTrim, CheckFits, UnitOf, Input, StereoEncoder;
    if plan != [] {
      var front, last := plan[..|plan| - 1], plan[|plan| - 1];
      PlanAccepted(g, s, front);
      assert Inputs(g, s, plan)[..|plan| - 1] == Inputs(g, s, front);
      InputAccepted(g, s, AcceptAll(StereoEncoder(g, s), Inputs(g, s, front)).value.1, last);
    }
  }

  lemma UnitIsSmall(s: Stream, trim: Option<Trimming>)
    ensures UnitFits(Definitions([GainOf(s, 0), GainOf(s, 1)]), UnitOf(s, trim))
  {
    hide WParameterBlock, Definitions, CheckFrame, AccessUnit, CodecOf, RateOf;
    Governs(s, 0);
    Governs(s, 1);
    RampWrites(s, 0);
    RampWrites(s, 1);
    UnitPasses(s);
  }

  /** A prologue that can be written, followed by units that each can be. */
  lemma {:induction false} RunWrites(set_: DescriptorSet, units: seq<TemporalUnit>)
    requires WAll([], [], FlatDescriptors(set_)).Ok?
    requires forall i | 0 <= i < |units| :: WAll([], FromDescriptors(set_), FlatUnit(units[i])).Ok?
    ensures WAll([], [], FromParts(set_, units)).Ok?
  {
    hide WAll, FlatDescriptors, FromDescriptors, FlatUnit;
    if units == [] {
      assert FlatDescriptors(set_) + FlatUnits([]) == FlatDescriptors(set_);
    } else {
      var front, last := units[..|units| - 1], units[|units| - 1];
      RunWrites(set_, front);
      assert front + [last] == units;
      BatchSnoc(set_, front, last);
    }
  }

  /** The inputs are accepted, under an allowed trim plan, and the run they lower to is written and parses back. */
  ghost predicate Succeeds(e: Encoder, inputs: seq<TemporalUnitInput>) {
    hide AcceptAll, WriteSequence, ParseSequence, FromParts, Allowed;
    && AcceptAll(e, inputs).Ok? && |AcceptAll(e, inputs).value.0| == |inputs|
    && FrameSize(e).Some? && Allowed(FrameSize(e).value, OpusPreSkip(e), Trims(inputs))
    && var s := FromParts(e.descriptors, AcceptAll(e, inputs).value.0);
       WriteSequence(s).Ok? && ParseSequence(WriteSequence(s).value) == Ok(s)
  }

  lemma PrologueStarts(g: u64, s: Stream)
    ensures Built(StereoEncoder(g, s)) && WAll([], [], FlatDescriptors(LoweredSet(s, 1, 0))).Ok?
  {
    hide Build, WAll, FlatDescriptors, CodecOf;
    StereoBuilds(g, s, 1, 0);
    FewAlwaysStart(StereoDeclared(g, s, 1, 0));
  }

  lemma UnitWrites(g: u64, s: Stream, trim: Option<Trimming>, p: Progress)
    requires Ready(StereoEncoder(g, s)) && CheckFits(trim, s.Samples()).Ok?
    requires StepTrim(Some(s.Samples()), s.PreSkip(), p.trims, trim).Ok?
    requires p.parameterIds == None || p.parameterIds == Some([0, 1])
    ensures WAll([], FromDescriptors(LoweredSet(s, 1, 0)), FlatUnit(UnitOf(s, trim))).Ok?
  {
    hide Ready, WAll, FlatUnit, FromDescriptors, StepTrim, CheckFits, Preflight, UnitOf, UnitFits, Input, LoweredSet;
    InputAccepted(g, s, p, trim);
    UnitIsTheCeiling(StereoEncoder(g, s), p, Input(g, s, trim));
    Registry(s);
    UnitIsSmall(s, trim);
  }

  lemma {:induction false} PlanWrites(g: u64, s: Stream, plan: seq<Option<Trimming>>)
    requires Ready(StereoEncoder(g, s)) && RunTrims(s.Samples(), s.PreSkip(), plan).Ok?
    ensures forall i | 0 <= i < |plan| ::
              WAll([], FromDescriptors(LoweredSet(s, 1, 0)), FlatUnit(UnitOf(s, plan[i]))).Ok?
  {
    hide Ready, WAll, FlatUnit, FromDescriptors, StepTrim, CheckFits, UnitOf, LoweredSet, StereoEncoder;
    if plan != [] {
      var front, last := plan[..|plan| - 1], plan[|plan| - 1];
      PlanWrites(g, s, front);
      UnitWrites(g, s, last, Progress(None, RunTrims(s.Samples(), s.PreSkip(), front).value));
      assert forall i | 0 <= i < |front| :: plan[i] == front[i];
    }
  }

  /**
    The theorems about builds and runs are about something, and the trim rules ask for no more than they must:
    for every configuration of each codec there is an encoder that carries every allowed trim plan, with a block
    for each of its parameters in every unit, to bytes and back.
  */
  lemma AllowedPlansRun(g: u64, s: Stream, plan: seq<Option<Trimming>>)
    requires Allowed(s.Samples(), s.PreSkip(), plan)
    ensures hide Built, Succeeds;
            Built(StereoEncoder(g, s)) && Succeeds(StereoEncoder(g, s), Inputs(g, s, plan))
  {
    hide Ready, AcceptAll, WriteSequence, ParseSequence, FromParts, Allowed, WAll, FlatUnit, FromDescriptors, RunTrims;
    hide FlatDescriptors, UnitOf, SetClean;
    var e, inputs := StereoEncoder(g, s), Inputs(g, s, plan);
    PrologueStarts(g, s);
    BuiltIsReady(e);
    JudgesExactly(s.Samples(), s.PreSkip(), plan);
    PlanAccepted(g, s, plan);
    PlanWrites(g, s, plan);
    var units := AcceptAll(e, inputs).value.0;
    RunWrites(e.descriptors, units);
    WriteFailsOnlyOnAnObu(FromParts(e.descriptors, units));
    RunParsesBack(e, inputs);
    FrameIsSamples(g, s);
    assert Trims(inputs) == plan;
  }

  /** Such a plan: a pre-skip over one unit and part of the next, any number of whole units, and an end trim. */
  lemma SomePlanIsAllowed(n: nat)
    ensures var start := [Some(Trimming(0, 960)), Some(Trimming(0, 40))];
            Allowed(960, Some(1000), start + Untrimmed(n) + [Some(Trimming(100, 0))])
  {
    var start := [Some(Trimming(0, 960)), Some(Trimming(0, 40))];
    var middle := Untrimmed(n);
    UntrimmedAdds(start, n);
    var plan := start + middle + [Some(Trimming(100, 0))];
    assert plan[..|plan| - 1] == start + middle;
    assert StartSum(start) == 1000 by {
      assert start[..1] == [Some(Trimming(0, 960))];
      assert start[..1][..0] == [];
    }
  }

  function Untrimmed(n: nat): (r: seq<Option<Trimming>>)
    ensures |r| == n && forall i | 0 <= i < n :: r[i] == None
  {
    seq(n, _ => None)
  }

  lemma {:induction false} UntrimmedAdds(start: seq<Option<Trimming>>, n: nat)
    ensures StartSum(start + Untrimmed(n)) == StartSum(start)
  {
    if n == 0 {
      assert start + Untrimmed(0) == start;
    } else {
      UntrimmedAdds(start, n - 1);
      assert (start + Untrimmed(n))[..|start| + n - 1] == start + Untrimmed(n - 1);
    }
  }
}
