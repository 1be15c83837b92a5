/** The flat sequence in its own form: a growing registry, a fused reader, and the whole-file writer. */
module SequenceIO {
  import opened Core
  import opened Bits
  import opened Leb128
  import opened Obus
  import opened ParamDefinitions
  import opened ParameterBlocks
  import opened SequenceHeaders
  import opened CodecConfigs
  import opened AudioElements
  import opened MixPresentations
  import opened AudioFrames
  import opened SequenceObus
  import opened Sequences
  import opened BitWriters
  import opened BitCursors
  import opened Framing
  import PayloadWriters
  import PayloadReaders

  /** Every definition in descriptor wire order, duplicates included. */
  class ParamDefinitionRegistry {
    var entries: Registry

    constructor ()
      ensures entries == []
    {
      entries := [];
    }

    method Register(definition: ParamDefinition, context: Context)
      modifies this
      ensures entries == old(entries) + [Registered(definition, context)]
    {
      entries := entries + [Registered(definition, context)];
    }

    method ObserveAudioElement(e: AudioElement)
      modifies this
      ensures entries == ObserveElement(old(entries), e)
    {
      var gates := ReconGates(e.elementType);
      assert e.params[0..] == e.params;
      for i := 0 to |e.params|
        invariant entries + ElementDefinitions(e.params[i..], gates) == ObserveElement(old(entries), e)
      {
        assert e.params[i..][0] == e.params[i] && e.params[i..][1..] == e.params[i + 1..];
        match e.params[i] {
          case DemixingParam(definition, _, _, _, _) => Register(definition, DemixingContext);
          case ReconGainParam(definition) => Register(definition, ReconGainContext(gates));
          case ExtensionParam(_, _) =>
        }
      }
      assert e.params[|e.params|..] == [];
      assert entries + [] == entries;
    }

    method ObserveMixPresentation(m: MixPresentation)
      modifies this
      ensures entries == ObserveMix(old(entries), m)
    {
      assert m.subMixes[0..] == m.subMixes;
      for i := 0 to |m.subMixes|
        invariant entries + MixDefinitions(m.subMixes[i..]) == ObserveMix(old(entries), m)
      {
        assert m.subMixes[i..][0] == m.subMixes[i] && m.subMixes[i..][1..] == m.subMixes[i + 1..];
        ghost var before := entries;
        ghost var gains := GainDefinitions(m.subMixes[i].elements);
        for j := 0 to |m.subMixes[i].elements|
          invariant entries == before + gains[..j]
        {
          Register(m.subMixes[i].elements[j].mixGain.definition, MixGainContext);
        }
        Register(m.subMixes[i].outputMixGain.definition, MixGainContext);
      }
      assert m.subMixes[|m.subMixes|..] == [];
      assert entries + [] == entries;
    }

    /** The reaction to one OBU of the flat sequence. */
    method ObserveObu(o: SequenceObu)
      modifies this
      ensures entries == Observe(old(entries), o)
    {
      match o {
        case Element(e) => ObserveAudioElement(e.payload);
        case Mix(m) => ObserveMixPresentation(m.payload);
        case _ =>
      }
    }
  }

  // ------------------------------------------------------------ writing

  /** The end of `write_obu_with_header`: the payload must be whole bytes, `trailing` comes last. */
  method FramePayload(w: BitWriter, h: ObuHeader, payload: BitWriter, trailing: seq<u8>) returns (r: Result<()>)
    requires w.Valid() && payload.Valid() && w != payload
    modifies w
    ensures w.Valid() && Did(WObuWith(old(w.Bits()), h, Ok(payload.Bits()), trailing), r, w.Bits())
    ensures r.Err? ==> w.Bits() == old(w.Bits())
  {
    hide WObu, BytesBits, w.Bits, w.Valid;
    var bytes :- payload.AsBytes();
    BytesBitsConcat(bytes, trailing);
    r := WriteObu(w, h, bytes + trailing);
  }

  /** The payload of one OBU; opaque payloads are bytes already. */
  method WritePayload(payload: BitWriter, registry: Registry, o: SequenceObu) returns (r: Result<()>)
    requires payload.Valid() && payload.Bits() == [] && !o.Ungoverned? && !o.Unknown?
    modifies payload
    ensures payload.Valid() && Did(PayloadOf(registry, o), r, payload.Bits())
  {
    hide WHeaderBody, WCodecBody, WElementBody, WMixBody, WParameterBlock, WAudioFrame, payload.Bits, payload.Valid;
    match o
    case IaHeader(o) =>
      var _ :- PayloadWriters.WriteHeaderBody(payload, o.payload);
      payload.WriteBytes(o.payload.trailing);
      r := Ok(());
    case Codec(o) =>
      var _ :- PayloadWriters.WriteCodecBody(payload, o.payload);
      payload.WriteBytes(o.payload.trailing);
      r := Ok(());
    case Element(o) =>
      var _ :- PayloadWriters.WriteElementBody(payload, o.payload);
      payload.WriteBytes(o.payload.trailing);
      r := Ok(());
    case Mix(o) =>
      var _ :- PayloadWriters.WriteMixBody(payload, o.payload);
      payload.WriteBytes(o.payload.trailing);
      r := Ok(());
    case Block(o) =>
      var governing := Get(registry, o.payload.parameterId);
      if governing.None? {
        return Err(NoGoverningParamDefinition);
      }
      r := PayloadWriters.WriteParameterBlock(payload, governing.value.definition, governing.value.context, o.payload);
    case Delimiter(_) => r := Ok(());
    case Frame(o) => r := PayloadWriters.WriteAudioFrame(payload, o.header, o.payload);
  }

  /** The payload of an OBU that has one, and what follows it. */
  ghost function PayloadOf(registry: Registry, o: SequenceObu): Result<BitSeq>
    requires !o.Ungoverned? && !o.Unknown?
  {
    match o
    case IaHeader(o) => WHeaderPayload(o.payload)
    case Codec(o) => WCodecPayload(o.payload)
    case Element(o) => WElementPayload(o.payload)
    case Mix(o) => WMixPayload(o.payload)
    case Block(o) => WGovernedBlock(registry, o.payload)
    case Delimiter(_) => Ok([])
    case Frame(o) => WAudioFrame([], o.header, o.payload)
  }

  function TrailingOf(o: SequenceObu): seq<u8>
    requires !o.Ungoverned? && !o.Unknown?
  {
    match o
    case IaHeader(o) => o.trailing
    case Codec(o) => o.trailing
    case Element(o) => o.trailing
    case Mix(o) => o.trailing
    case Block(o) => o.trailing
    case Delimiter(o) => o.trailing
    case Frame(o) => o.trailing
  }

  lemma FramedIs(w: BitSeq, registry: Registry, o: SequenceObu)
    requires !o.Ungoverned? && !o.Unknown?
    ensures WSeqObu(w, registry, o) == WObuWith(w, o.Header(), PayloadOf(registry, o), TrailingOf(o))
    ensures PayloadOf(registry, o).Err? ==> WSeqObu(w, registry, o) == Err(PayloadOf(registry, o).error)
  {
    hide WHeaderPayload, WCodecPayload, WElementPayload, WMixPayload, WGovernedBlock, WAudioFrame, WObu;
  }

  /** One OBU: appended whole, or the writer is left as it was. */
  method WriteOneObu(w: BitWriter, registry: Registry, o: SequenceObu) returns (r: Result<()>)
    requires w.Valid()
    modifies w
    ensures w.Valid() && Did(WSeqObu(old(w.Bits()), registry, o), r, w.Bits())
    ensures r.Err? ==> w.Bits() == old(w.Bits())
  {
    hide w.Bits, w.Valid;
    if o.Ungoverned? || o.Unknown? {
      hide WObu, BytesBits;
      r := WriteObu(w, o.header, o.bytes);
    } else {
      FramedIs(w.Bits(), registry, o);
      hide WSeqObu, PayloadOf, WObuWith;
      var payload := new BitWriter();
      var _ :- WritePayload(payload, registry, o);
      r := FramePayload(w, o.Header(), payload, TrailingOf(o));
    }
  }

  /** `write_parsed_sequence`, up to handing the bytes to the sink. */
  method WriteParsedSequence(s: seq<SequenceObu>) returns (r: Result<seq<u8>>)
    ensures r == WriteSequence(s)
  {
    var w := new BitWriter();
    var registry := new ParamDefinitionRegistry();
    hide WSeqObu, Observe, w.Bits, w.Valid;
    assert s[0..] == s;
    for i := 0 to |s|
      invariant w.Valid() && WAll(w.Bits(), registry.entries, s[i..]) == WAll([], [], s)
    {
      assert s[i..][0] == s[i] && s[i..][1..] == s[i + 1..];
      var _ :- WriteOneObu(w, registry.entries, s[i]);
      registry.ObserveObu(s[i]);
    }
    r := w.AsBytes();
  }

  // ------------------------------------------------------------ reading

  /** The payload parser of each framed kind, then the drain; the header has been seen. */
  method ReadFramed(r: BitCursor, t: ObuType, ghost registry: Registry) returns (o: Result<SequenceObu>)
    requires r.Valid() && !t.ParameterBlockObu?
    requires RHeaderParts(r.Wire(), r.Pos()).Ok? && RHeaderParts(r.Wire(), r.Pos()).value.header.obuType == t
    modifies r`bytePos, r`bitOff
    ensures r.Valid() && Got(RSeqObu(r.Wire(), old(r.Pos()), registry), o, r.Pos())
  {
    hide RWindow, RHeaderParts, RHeaderBody, RCodecBody, RElementBody, RMixBody, RAudioFrame, RRest;
    var child :- OpenObu(r);
    var h, payload := child.0, child.1;
    if t.IaSequenceHeaderObu? {
      var v :- PayloadReaders.ReadHeaderBody(payload);
      var trailing :- Drain(payload);
      o := Ok(IaHeader(Obu(h, v, trailing)));
    } else if t.CodecConfigObu? {
      var v :- PayloadReaders.ReadCodecBody(payload);
      var trailing :- Drain(payload);
      o := Ok(Codec(Obu(h, v, trailing)));
    } else if t.AudioElementObu? {
      var v :- PayloadReaders.ReadElementBody(payload);
      var trailing :- Drain(payload);
      o := Ok(Element(Obu(h, v, trailing)));
    } else if t.MixPresentationObu? {
      var v :- PayloadReaders.ReadMixBody(payload);
      var trailing :- Drain(payload);
      o := Ok(Mix(Obu(h, v, trailing)));
    } else if t.TemporalDelimiterObu? {
      var trailing :- Drain(payload);
      o := Ok(Delimiter(Obu(h, (), trailing)));
    } else if t.ReservedObu? {
      var v :- PayloadReaders.ReadRest(payload);
      var _ :- Drain(payload);
      o := Ok(Unknown(h, v));
    } else {
      var v :- PayloadReaders.ReadAudioFrame(payload, h);
      var trailing :- Drain(payload);
      o := Ok(Frame(Obu(h, v, trailing)));
    }
  }

  /** A Parameter Block: its id is inspected on a clone, and decides between the governed and opaque forms. */
  method ReadBlock(r: BitCursor, registry: Registry) returns (o: Result<SequenceObu>)
    requires r.Valid()
    modifies r`bytePos, r`bitOff
    ensures r.Valid() && Got(RBlockObu(r.Wire(), old(r.Pos()), registry), o, r.Pos())
  {
    hide RWindow, RLeb, RParameterBlock, RRest, Get, r.Wire;
    var inspection := r.Clone();
    var id :- InspectId(inspection);
    var child := OpenObu(r);
    var h, payload := child.value.0, child.value.1;
    if Get(registry, id).Some? {
      var v :- PayloadReaders.ReadParameterBlock(payload, registry);
      var trailing :- Drain(payload);
      return Ok(Block(Obu(h, v, trailing)));
    }
    var bytes :- PayloadReaders.ReadRest(payload);
    var _ :- Drain(payload);
    o := Ok(Ungoverned(h, bytes));
  }

  method InspectId(r: BitCursor) returns (id: Result<u32>)
    requires r.Valid()
    modifies r`bytePos, r`bitOff
    ensures r.Valid() && id == RInspectedId(r.Wire(), old(r.Pos()))
  {
    hide RWindow, RLeb, RRest;
    var child :- OpenObu(r);
    var v :- child.1.ReadUleb128();
    var _ :- Drain(child.1);
    id := Ok(v);
  }

  lemma KindIs(d: BitSeq, p: nat, registry: Registry, t: ObuType)
    requires RHeaderParts(d, p).Ok? && RHeaderParts(d, p).value.header.obuType == t
    ensures t.ParameterBlockObu? ==> RSeqObu(d, p, registry) == RBlockObu(d, p, registry)
  {
    hide RHeaderParts, RBlockObu;
  }

  class SequenceReader {
    const input: seq<u8>
    var reader: BitCursor
    const registry: ParamDefinitionRegistry
    var finished: bool
    /** What has been yielded so far. */
    ghost var yielded: seq<SequenceObu>

    ghost predicate Valid()
      reads this, reader, registry
    {
      && reader.Valid() && reader.data == input && reader.Pos() % 8 == 0
      && Follows(BytesBits(input), reader.Pos(), registry.entries, yielded, finished)
    }

    constructor (input: seq<u8>)
      ensures Valid() && fresh(reader) && fresh(registry) && this.input == input
      ensures yielded == [] && !finished && reader.Pos() == 0
    {
      hide Follows, BytesBits;
      this.input := input;
      reader := new BitCursor(input);
      registry := new ParamDefinitionRegistry();
      finished := false;
      yielded := [];
      new;
      FollowsFromStart(BytesBits(input));
    }

    /** `next_obu`: the header is inspected on a clone; on an error the cursor may have moved. */
    method NextObu() returns (r: Result<SequenceObu>)
      requires Valid() && !finished
      modifies reader`bytePos, reader`bitOff, registry
      ensures reader.Valid()
      ensures match RSeqObu(BytesBits(input), old(reader.Pos()), old(registry.entries))
              case Ok((o, q)) =>
                r == Ok(o) && reader.Pos() == q && registry.entries == Observe(old(registry.entries), o)
              case Err(e) => r == Err(e) && registry.entries == old(registry.entries)
    {
      hide RHeaderParts, RObu, RBlockObu, Observe, ReadAll, BytesBits;
      ghost var d, p := BytesBits(input), reader.Pos();
      var inspection := reader.Clone();
      var parts :- ReadHeaderParts(inspection);
      var o: SequenceObu :- ReadKind(parts.header.obuType);
      registry.ObserveObu(o);
      r := Ok(o);
    }

    method ReadKind(t: ObuType) returns (o: Result<SequenceObu>)
      requires reader.Valid()
      requires RHeaderParts(reader.Wire(), reader.Pos()).Ok?
      requires RHeaderParts(reader.Wire(), reader.Pos()).value.header.obuType == t
      modifies reader`bytePos, reader`bitOff
      ensures reader.Valid() && Got(RSeqObu(reader.Wire(), old(reader.Pos()), registry.entries), o, reader.Pos())
    {
      hide RSeqObu, RBlockObu, RHeaderParts, reader.Wire;
      KindIs(reader.Wire(), reader.Pos(), registry.entries, t);
      if t.ParameterBlockObu? {
        o := ReadBlock(reader, registry.entries);
      } else {
        o := ReadFramed(reader, t, registry.entries);
      }
    }

    /**
      `next`: at most one error, at whose OBU the cursor stays. Always, the bytes before the cursor parse to
      exactly what has been yielded.
    */
    method Next() returns (item: Option<Result<SequenceObu>>)
      requires Valid()
      modifies this, reader, registry
      ensures Valid() && (reader == old(reader) || fresh(reader))
      ensures reader.bitOff == 0 && reader.bytePos <= |input|
      ensures ParseSequence(input[..reader.bytePos]) == Ok(yielded)
      ensures old(finished) || Remaining(BytesBits(input), old(reader.Pos())) == 0 ==>
                && item == None && finished == old(finished)
                && yielded == old(yielded) && reader.Pos() == old(reader.Pos())
      ensures !old(finished) && Remaining(BytesBits(input), old(reader.Pos())) != 0 ==>
                match RSeqObu(BytesBits(input), old(reader.Pos()), old(registry.entries))
                case Ok((o, q)) =>
                  && item == Some(Ok(o)) && yielded == old(yielded) + [o] && !finished
                  && reader.Pos() == q && registry.entries == Observe(old(registry.entries), o)
                case Err(e) =>
                  && item == Some(Err(e)) && yielded == old(yielded) && finished && reader.Pos() == old(reader.Pos())
                  && ReadAll(BytesBits(input), 0, []).failure == Some(e)
    {
      hide RSeqObu, Observe, Follows, ReadAll, ParseSequence, BytesBits;
      FollowsPrefix(input, reader.Pos(), registry.entries, yielded, finished);
      if finished || reader.BytesRemaining() == 0 {
        return None;
      }
      ghost var d, p, known := BytesBits(input), reader.Pos(), registry.entries;
      FollowsOn(d, p, known, yielded);
      var start := reader.Clone();
      var outcome := NextObu();
      if outcome.Ok? {
        yielded := yielded + [outcome.value];
      } else {
        reader := start;
        finished := true;
      }
      FollowsPrefix(input, reader.Pos(), registry.entries, yielded, finished);
      item := Some(outcome);
    }
  }

  /**
    A reader on `d` that stands at `p` with this registry has read `yielded` from the start; once finished,
    `p` is where the failing OBU starts.
  */
  ghost predicate Follows(d: BitSeq, p: nat, registry: Registry, yielded: seq<SequenceObu>, finished: bool) {
    && Reaches(d, 0, [], p, registry, yielded)
    && (finished ==> Remaining(d, p) != 0 && RSeqObu(d, p, registry).Err?)
  }

  lemma FollowsFromStart(d: BitSeq)
    ensures Follows(d, 0, [], [], false)
  {
  }

  lemma FollowsOn(d: BitSeq, p: nat, registry: Registry, yielded: seq<SequenceObu>)
    requires Remaining(d, p) != 0 && Follows(d, p, registry, yielded, false)
    ensures RSeqObu(d, p, registry).Err? ==>
              Follows(d, p, registry, yielded, true) && ReadAll(d, 0, []).failure == Some(RSeqObu(d, p, registry).error)
    ensures RSeqObu(d, p, registry).Ok? ==>
              var (o, q) := RSeqObu(d, p, registry).value;
              Follows(d, q, Observe(registry, o), yielded + [o], false) && q % 8 == 0
  {
    hide RSeqObu, Observe, Reaches;
    if RSeqObu(d, p, registry).Ok? {
      SeqObuEndAligned(d, p, registry);
      ReachesNext(d, 0, [], p, registry, yielded);
    } else {
      ReachesReads(d, 0, [], p, registry, yielded);
    }
  }

  lemma FollowsPrefix(input: seq<u8>, p: nat, registry: Registry, yielded: seq<SequenceObu>, finished: bool)
    requires Follows(BytesBits(input), p, registry, yielded, finished)
    ensures p / 8 <= |input| && ParseSequence(input[..p / 8]) == Ok(yielded)
  {
    hide RSeqObu, ParseSequence, Reaches, BytesBits;
    PrefixParses(input, p, registry, yielded);
  }

  /** `parse_sequence`: the reader, collected; no prefix on failure. */
  method Parse(input: seq<u8>) returns (r: Result<seq<SequenceObu>>)
    ensures r == ParseSequence(input)
  {
    hide RSeqObu, Observe, Follows, ReadAll, BytesBits;
    var reader := new SequenceReader(input);
    var obus: seq<SequenceObu> := [];
    while true
      invariant reader.Valid() && !reader.finished && obus == reader.yielded && reader.input == input
      invariant fresh(reader) && fresh(reader.reader) && fresh(reader.registry)
      decreases 8 * |input| - reader.reader.Pos()
    {
      ghost var p := reader.reader.Pos();
      if Remaining(BytesBits(input), p) == 0 {
        FollowsToEnd(BytesBits(input), p, reader.registry.entries, obus);
      }
      var item := reader.Next();
      match item {
        case None => return Ok(obus);
        case Some(Err(e)) => return Err(e);
        case Some(Ok(o)) => obus := obus + [o];
      }
    }
  }

  lemma FollowsToEnd(d: BitSeq, p: nat, registry: Registry, yielded: seq<SequenceObu>)
    requires Follows(d, p, registry, yielded, false) && Remaining(d, p) == 0
    ensures ReadAll(d, 0, []).items == yielded && ReadAll(d, 0, []).failure == None
  {
    hide RSeqObu, Observe, Reaches;
    ReachesReads(d, 0, [], p, registry, yielded);
    assert yielded + [] == yielded;
  }
}
