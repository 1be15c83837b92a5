/**
  Why writing piece by piece gives the bytes of the whole: an OBU's bytes do not depend on what precedes
  it, the registry only grows through descriptors, and payload-owned trailing bytes may move to the OBU.
*/
module Streams {
  import opened Core
  import opened Bits
  import opened Leb128
  import opened Obus
  import opened ParameterBlocks
  import opened SequenceHeaders
  import opened CodecConfigs
  import opened AudioElements
  import opened MixPresentations
  import opened AudioFrames
  import opened SequenceObus
  import opened Sequences
  import opened Parts

  /** `x` behind `w`, or the same error. */
  function Behind(w: BitSeq, x: Result<BitSeq>): Result<BitSeq> {
    match x
    case Ok(bits) => Ok(w + bits)
    case Err(e) => Err(e)
  }

  lemma FlagsBehind(w: BitSeq, h: ObuHeader, obuSize: u32)
    ensures WSizedFlags(w, h, obuSize) == Behind(w, WSizedFlags([], h, obuSize))
  {
    hide LebBits, BitsOf;
    var t, c, f, e := h.obuType.Value(), h.redundantCopy, h.TrimmingFlag(), h.ExtensionFlag();
    if t < Pow2(5) {
      assert [] + BitsOf(t, 5) == BitsOf(t, 5);
      assert w + BitsOf(t, 5) + [c] + [f] + [e] == w + (BitsOf(t, 5) + [c] + [f] + [e]);
      var flags := BitsOf(t, 5) + [c] + [f] + [e];
      var size := LebBits(obuSize, MinimalLen(obuSize));
      assert w + flags + size == w + (flags + size);
    }
  }

  lemma ObuBehind(w: BitSeq, h: ObuHeader, payload: BitSeq)
    requires |w| % 8 == 0 && |payload| % 8 == 0
    ensures WObu(w, h, payload) == Behind(w, WObu([], h, payload))
  {
    hide WSizedFlags, WAfterSize, ValidateHeader, ObuSizeFor;
    if ValidateHeader(h).Ok? && WAfterSize([], h).Ok? {
      var after := WAfterSize([], h).value;
      if ObuSizeFor(|after| / 8, |payload| / 8).Ok? {
        var obuSize := ObuSizeFor(|after| / 8, |payload| / 8).value;
        FlagsBehind(w, h, obuSize);
        if WSizedFlags([], h, obuSize).Ok? {
          var sized := WSizedFlags([], h, obuSize).value;
          assert w + sized + after + payload == w + (sized + after + payload);
        }
      }
    }
  }

  lemma FramedBehind(w: BitSeq, h: ObuHeader, payload: Result<BitSeq>, trailing: seq<u8>)
    requires |w| % 8 == 0
    ensures WObuWith(w, h, payload, trailing) == Behind(w, WObuWith([], h, payload, trailing))
  {
    hide WObu, WBytes;
    if payload.Ok? && |payload.value| % 8 == 0 {
      ObuBehind(w, h, WBytes(payload.value, trailing));
    }
  }

  /** An OBU is the same bytes wherever it is written. */
  lemma SeqObuBehind(w: BitSeq, registry: Registry, o: SequenceObu)
    requires |w| % 8 == 0
    ensures WSeqObu(w, registry, o) == Behind(w, WSeqObu([], registry, o))
  {
    hide WObuWith, WObu, Behind, WHeaderPayload, WCodecPayload, WElementPayload, WMixPayload, WGovernedBlock,
         WAudioFrame;
    hide BytesBits;
    match o
    case IaHeader(o) => FramedBehind(w, o.header, WHeaderPayload(o.payload), o.trailing);
    case Codec(o) => FramedBehind(w, o.header, WCodecPayload(o.payload), o.trailing);
    case Element(o) => FramedBehind(w, o.header, WElementPayload(o.payload), o.trailing);
    case Mix(o) => FramedBehind(w, o.header, WMixPayload(o.payload), o.trailing);
    case Block(o) => FramedBehind(w, o.header, WGovernedBlock(registry, o.payload), o.trailing);
    case Ungoverned(h, bytes) => ObuBehind(w, h, BytesBits(bytes));
    case Delimiter(o) => FramedBehind(w, o.header, Ok([]), o.trailing);
    case Frame(o) => FramedBehind(w, o.header, WAudioFrame([], o.header, o.payload), o.trailing);
    case Unknown(h, bytes) => ObuBehind(w, h, BytesBits(bytes));
  }

  /** The registry after a run of OBUs. */
  function After(registry: Registry, s: seq<SequenceObu>): Registry
    decreases |s|
  {
    if s == [] then registry else After(Observe(registry, s[0]), s[1..])
  }

  lemma {:induction false} AllBehind(w: BitSeq, registry: Registry, s: seq<SequenceObu>)
    requires |w| % 8 == 0
    ensures WAll(w, registry, s) == Behind(w, WAll([], registry, s))
    decreases |s|
  {
    hide WSeqObu, Observe;
    if s == [] {
      assert w + [] == w;
    } else {
      SeqObuBehind(w, registry, s[0]);
      if WSeqObu([], registry, s[0]).Ok? {
        var first := WSeqObu([], registry, s[0]).value;
        SeqObuAligned([], registry, s[0]);
        AllBehind(first, Observe(registry, s[0]), s[1..]);
        AllBehind(w + first, Observe(registry, s[0]), s[1..]);
        var rest := WAll([], Observe(registry, s[0]), s[1..]);
        if rest.Ok? {
          assert w + first + rest.value == w + (first + rest.value);
        }
      }
    }
  }

  lemma {:induction false} AllJoin(w: BitSeq, registry: Registry, a: seq<SequenceObu>, b: seq<SequenceObu>)
    ensures WAll(w, registry, a).Ok? ==>
              WAll(w, registry, a + b) == WAll(WAll(w, registry, a).value, After(registry, a), b)
    ensures WAll(w, registry, a).Err? ==> WAll(w, registry, a + b) == WAll(w, registry, a)
    decreases |a|
  {
    hide WSeqObu, Observe;
    if a == [] {
      assert a + b == b;
    } else {
      assert (a + b)[0] == a[0] && (a + b)[1..] == a[1..] + b;
      if WSeqObu(w, registry, a[0]).Ok? {
        AllJoin(WSeqObu(w, registry, a[0]).value, Observe(registry, a[0]), a[1..], b);
      }
    }
  }

  lemma {:induction false} AfterJoin(registry: Registry, a: seq<SequenceObu>, b: seq<SequenceObu>)
    ensures After(registry, a + b) == After(After(registry, a), b)
    decreases |a|
  {
    hide Observe;
    if a == [] {
      assert a + b == b;
    } else {
      assert (a + b)[0] == a[0] && (a + b)[1..] == a[1..] + b;
      AfterJoin(Observe(registry, a[0]), a[1..], b);
    }
  }

  // ------------------------------------------------------------ the registry of a descriptor set

  function ObserveElements(registry: Registry, elements: seq<AudioElement>): Registry
    decreases |elements|
  {
    if elements == [] then registry else ObserveElements(ObserveElement(registry, elements[0]), elements[1..])
  }

  function ObserveMixes(registry: Registry, mixes: seq<MixPresentation>): Registry
    decreases |mixes|
  {
    if mixes == [] then registry else ObserveMixes(ObserveMix(registry, mixes[0]), mixes[1..])
  }

  /** `from_descriptors`: elements in their wire order, then the presentations. */
  function FromDescriptors(set_: DescriptorSet): Registry {
    ObserveMixes(ObserveElements([], SortedElements(set_)), set_.mixPresentations)
  }

  lemma {:induction false} ElementsObserved(registry: Registry, elements: seq<AudioElement>)
    ensures After(registry, Map(FlatElement, elements)) == ObserveElements(registry, elements)
    decreases |elements|
  {
    hide ObserveElement;
    if elements != [] {
      assert Map(FlatElement, elements)[1..] == Map(FlatElement, elements[1..]);
      assert Observe(registry, FlatElement(elements[0])) == ObserveElement(registry, elements[0]) by {
        TrailingUnobserved(registry, elements[0]);
      }
      ElementsObserved(ObserveElement(registry, elements[0]), elements[1..]);
    }
  }

  lemma TrailingUnobserved(registry: Registry, e: AudioElement)
    ensures ObserveElement(registry, e.(trailing := [])) == ObserveElement(registry, e)
  {
  }

  lemma {:induction false} MixesObserved(registry: Registry, mixes: seq<MixPresentation>)
    ensures After(registry, Map(FlatMix, mixes)) == ObserveMixes(registry, mixes)
    decreases |mixes|
  {
    if mixes != [] {
      assert Map(FlatMix, mixes)[1..] == Map(FlatMix, mixes[1..]);
      MixesObserved(ObserveMix(registry, mixes[0]), mixes[1..]);
    }
  }

  lemma {:induction false} CodecsUnobserved(registry: Registry, codecs: seq<CodecConfig>)
    ensures After(registry, Map(FlatCodec, codecs)) == registry
    decreases |codecs|
  {
    if codecs != [] {
      assert Map(FlatCodec, codecs)[1..] == Map(FlatCodec, codecs[1..]);
      CodecsUnobserved(registry, codecs[1..]);
    }
  }

  /** Reading the prologue builds the registry the streaming writer builds from the descriptors. */
  lemma PrologueRegistry(set_: DescriptorSet)
    ensures After([], FlatDescriptors(set_)) == FromDescriptors(set_)
  {
    hide ObserveElements, ObserveMixes, SortedElements, SortedCodecs;
    var header := [FlatHeader(set_.sequenceHeader)];
    var codecs := Map(FlatCodec, SortedCodecs(set_));
    var elements := Map(FlatElement, SortedElements(set_));
    var mixes := Map(FlatMix, set_.mixPresentations);
    AfterJoin([], header + codecs + elements, mixes);
    AfterJoin([], header + codecs, elements);
    AfterJoin([], header, codecs);
    HeaderUnobserved(set_.sequenceHeader);
    CodecsUnobserved([], SortedCodecs(set_));
    ElementsObserved([], SortedElements(set_));
    MixesObserved(ObserveElements([], SortedElements(set_)), set_.mixPresentations);
  }

  lemma HeaderUnobserved(v: IaSequenceHeader)
    ensures After([], [FlatHeader(v)]) == []
  {
  }

  lemma {:induction false} TemporalUnobserved(registry: Registry, s: seq<SequenceObu>)
    requires forall i | 0 <= i < |s| :: IsTemporal(s[i])
    ensures After(registry, s) == registry
    decreases |s|
  {
    if s != [] {
      TemporalUnobserved(registry, s[1..]);
    }
  }

  lemma UnitTemporal(u: TemporalUnit)
    ensures forall i | 0 <= i < |FlatUnit(u)| :: IsTemporal(FlatUnit(u)[i])
  {
  }

  lemma {:induction false} UnitsTemporal(units: seq<TemporalUnit>)
    ensures forall i | 0 <= i < |FlatUnits(units)| :: IsTemporal(FlatUnits(units)[i])
    decreases |units|
  {
    hide FlatUnit;
    if units != [] {
      UnitTemporal(units[0]);
      UnitsTemporal(units[1..]);
    }
  }

  lemma {:induction false} UnitsSnoc(units: seq<TemporalUnit>, u: TemporalUnit)
    ensures FlatUnits(units + [u]) == FlatUnits(units) + FlatUnit(u)
    decreases |units|
  {
    hide FlatUnit;
    if units == [] {
      assert [] + [u] == [u] && [u][1..] == [];
      assert FlatUnits([u]) == FlatUnit(u) + [];
      assert [] + FlatUnit(u) == FlatUnit(u);
    } else {
      assert (units + [u])[1..] == units[1..] + [u];
      UnitsSnoc(units[1..], u);
      assert FlatUnit(units[0]) + (FlatUnits(units[1..]) + FlatUnit(u))
          == FlatUnit(units[0]) + FlatUnits(units[1..]) + FlatUnit(u);
    }
  }

  /**
    One more unit: its own bytes, written alone against the registry of the descriptors, are what the batch
    writer adds for it.
  */
  lemma BatchSnoc(set_: DescriptorSet, units: seq<TemporalUnit>, u: TemporalUnit)
    requires WAll([], [], FromParts(set_, units)).Ok?
    ensures WAll([], [], FromParts(set_, units + [u]))
         == Behind(WAll([], [], FromParts(set_, units)).value, WAll([], FromDescriptors(set_), FlatUnit(u)))
  {
    hide WAll, FlatDescriptors, FlatUnits, FlatUnit, FromDescriptors, After, Behind;
    var prologue, temporal := FlatDescriptors(set_), FlatUnits(units);
    UnitsSnoc(units, u);
    assert prologue + (temporal + FlatUnit(u)) == prologue + temporal + FlatUnit(u);
    AllJoin([], [], prologue + temporal, FlatUnit(u));
    AfterJoin([], prologue, temporal);
    PrologueRegistry(set_);
    UnitsTemporal(units);
    TemporalUnobserved(FromDescriptors(set_), temporal);
    WAllAligned([], [], prologue + temporal);
    AllBehind(WAll([], [], prologue + temporal).value, FromDescriptors(set_), FlatUnit(u));
  }

  // ------------------------------------------------------------ who owns the trailing bytes

  /** An OBU as the descriptor writers pass it: the payload keeps its own trailing bytes. */
  function OwnedHeader(v: IaSequenceHeader): SequenceObu {
    IaHeader(Obu(ObuHeader.New(IaSequenceHeaderObu), v, []))
  }

  function OwnedCodec(v: CodecConfig): SequenceObu {
    Codec(Obu(ObuHeader.New(CodecConfigObu), v, []))
  }

  function OwnedElement(v: AudioElement): SequenceObu {
    Element(Obu(ObuHeader.New(AudioElementObu), v, []))
  }

  function OwnedMix(v: MixPresentation): SequenceObu {
    Mix(Obu(ObuHeader.New(MixPresentationObu), v, []))
  }

  lemma TrailingMoves(w: BitSeq, h: ObuHeader, body: Result<BitSeq>, trailing: seq<u8>)
    ensures WObuWith(w, h, WithTrailing(body, trailing), []) == WObuWith(w, h, WithTrailing(body, []), trailing)
  {
    hide WObu;
    if body.Ok? {
      NothingAppended(body.value);
      NothingAppended(WBytes(body.value, trailing));
    }
  }

  // Moving a payload's trailing bytes to the OBU changes no byte that is written.

  lemma HeaderIsSilent(w: BitSeq, registry: Registry, v: IaSequenceHeader)
    ensures WSeqObu(w, registry, OwnedHeader(v)) == WSeqObu(w, registry, FlatHeader(v))
  {
    hide WObuWith, WithTrailing, WU;
    TrailingMoves(w, ObuHeader.New(IaSequenceHeaderObu), WHeaderBody([], v), v.trailing);
  }

  lemma CodecIsSilent(w: BitSeq, registry: Registry, v: CodecConfig)
    ensures WSeqObu(w, registry, OwnedCodec(v)) == WSeqObu(w, registry, FlatCodec(v))
  {
    hide WObuWith, WithTrailing, WLeb, WDecoderConfig;
    TrailingMoves(w, ObuHeader.New(CodecConfigObu), WCodecBody([], v), v.trailing);
  }

  lemma ElementIsSilent(w: BitSeq, registry: Registry, v: AudioElement)
    ensures WSeqObu(w, registry, OwnedElement(v)) == WSeqObu(w, registry, FlatElement(v))
  {
    hide WObuWith, WithTrailing, WLeb, WU, WElementType, WElementParam;
    TrailingMoves(w, ObuHeader.New(AudioElementObu), WElementBody([], v), v.trailing);
  }

  lemma MixIsSilent(w: BitSeq, registry: Registry, v: MixPresentation)
    ensures WSeqObu(w, registry, OwnedMix(v)) == WSeqObu(w, registry, FlatMix(v))
  {
    hide WObuWith, WithTrailing, WLeb, WSubMix;
    TrailingMoves(w, ObuHeader.New(MixPresentationObu), WMixBody([], v), v.trailing);
  }

  // ------------------------------------------------------------ in bytes

  lemma PackJoin(a: BitSeq, b: BitSeq)
    requires |a| % 8 == 0 && |b| % 8 == 0
    ensures Pack(a + b) == Pack(a) + Pack(b)
  {
    hide BytesBits, BytesAt;
    PackRoundTrip(a);
    PackRoundTrip(b);
    BytesBitsConcat(Pack(a), Pack(b));
    PackOfBytes(Pack(a) + Pack(b));
  }

  /** One OBU more of a unit: the bytes so far, and its own. */
  lemma UnitStep(definitions: Registry, s: seq<SequenceObu>, i: nat)
    requires i < |s| && (forall k | 0 <= k < |s| :: IsTemporal(s[k])) && WAll([], definitions, s[..i]).Ok?
    ensures WAll([], definitions, s[..i + 1])
         == Behind(WAll([], definitions, s[..i]).value, WSeqObu([], definitions, s[i]))
    ensures WSeqObu([], definitions, s[i]).Err? ==>
              WAll([], definitions, s) == Err(WSeqObu([], definitions, s[i]).error)
    ensures |WAll([], definitions, s[..i]).value| % 8 == 0
    ensures WSeqObu([], definitions, s[i]).Ok? ==> |WSeqObu([], definitions, s[i]).value| % 8 == 0
  {
    hide WSeqObu, Observe, After, Behind;
    var w := WAll([], definitions, s[..i]).value;
    WAllAligned([], definitions, s[..i]);
    assert s[..i + 1] == s[..i] + [s[i]] && s == s[..i + 1] + s[i + 1..];
    AllJoin([], definitions, s[..i], [s[i]]);
    AllJoin([], definitions, s[..i + 1], s[i + 1..]);
    TemporalUnobserved(definitions, s[..i]);
    OneObu(w, definitions, s[i]);
    SeqObuBehind(w, definitions, s[i]);
    BehindFails(w, WSeqObu([], definitions, s[i]));
    if WSeqObu([], definitions, s[i]).Ok? {
      SeqObuAligned([], definitions, s[i]);
    }
  }

  lemma BehindFails(w: BitSeq, x: Result<BitSeq>)
    ensures x.Err? ==> Behind(w, x) == x
  {
  }

  lemma OneObu(w: BitSeq, registry: Registry, o: SequenceObu)
    ensures WAll(w, registry, [o]) == WSeqObu(w, registry, o)
  {
    hide WSeqObu, Observe;
    assert [o][1..] == [];
  }

  lemma {:induction false} PrefixWrites(w: BitSeq, registry: Registry, s: seq<SequenceObu>, i: nat)
    requires i <= |s| && WAll(w, registry, s).Ok?
    ensures WAll(w, registry, s[..i]).Ok? && WAll(w, registry, s[..i]).value <= WAll(w, registry, s).value
  {
    hide WAll, After;
    assert s == s[..i] + s[i..];
    AllJoin(w, registry, s[..i], s[i..]);
    WAllGrows(WAll(w, registry, s[..i]).value, After(registry, s[..i]), s[i..]);
  }

  /** A descriptor OBU ignores the registry. */
  lemma DescriptorsIgnoreRegistry(w: BitSeq, registry: Registry, o: SequenceObu)
    requires !o.Block?
    ensures WSeqObu(w, registry, o) == WSeqObu(w, [], o)
  {
    hide WObuWith, WObu, WHeaderPayload, WCodecPayload, WElementPayload, WMixPayload, WGovernedBlock, WAudioFrame;
  }

  /** One descriptor more of a prologue, written as its owner passes it. */
  lemma PrologueStep(w: BitSeq, registry: Registry, s: seq<SequenceObu>, k: nat, owned: SequenceObu)
    requires k < |s| && !s[k].Block? && WSeqObu(w, [], owned) == WSeqObu(w, [], s[k])
    ensures WSeqObu(w, [], owned).Err? ==> WAll(w, registry, s[k..]) == Err(WSeqObu(w, [], owned).error)
    ensures WSeqObu(w, [], owned).Ok? ==>
              WAll(w, registry, s[k..]) == WAll(WSeqObu(w, [], owned).value, Observe(registry, s[k]), s[k + 1..])
  {
    hide WSeqObu, Observe;
    DescriptorsIgnoreRegistry(w, registry, s[k]);
    assert s[k..][0] == s[k] && s[k..][1..] == s[k + 1..];
  }
}
