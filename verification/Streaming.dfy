/** The streaming writer over a sink that may take part of a write, be interrupted, or fail. */
module Streaming {
  import opened Core
  import opened Bits
  import opened ParameterBlocks
  import opened AudioFrames
  import opened SequenceObus
  import opened Sequences
  import opened Parts
  import opened Streams
  import opened BitWriters
  import opened SequenceIO

  /** What the sink will do with the next write; past the end of the script it takes everything. */
  datatype SinkStep = Accept(upTo: nat) | Interrupt | Refuse

  datatype SinkOutcome = Took(count: nat) | Interrupted | Failed

  class Sink {
    var accepted: seq<u8>
    var script: seq<SinkStep>
    var flushFails: bool
    /** How many writes failed or took nothing. */
    ghost var refusals: nat

    constructor (script: seq<SinkStep>, flushFails: bool)
      ensures accepted == [] && this.script == script && this.flushFails == flushFails && refusals == 0
    {
      accepted := [];
      this.script := script;
      this.flushFails := flushFails;
      refusals := 0;
    }

    method Write(bytes: seq<u8>) returns (outcome: SinkOutcome)
      requires bytes != []
      modifies this
      ensures outcome.Took? ==> outcome.count <= |bytes| && accepted == old(accepted) + bytes[..outcome.count]
      ensures !outcome.Took? ==> accepted == old(accepted)
      ensures refusals == old(refusals) + (if outcome == Failed || outcome == Took(0) then 1 else 0)
      ensures |script| <= |old(script)| && (|script| == |old(script)| ==> outcome == Took(|bytes|))
      ensures flushFails == old(flushFails)
    {
      if script == [] {
        accepted := accepted + bytes;
        assert bytes[..|bytes|] == bytes;
        return Took(|bytes|);
      }
      var step := script[0];
      script := script[1..];
      match step
      case Accept(upTo) =>
        var count := if upTo <= |bytes| then upTo else |bytes|;
        accepted := accepted + bytes[..count];
        refusals := refusals + (if count == 0 then 1 else 0);
        outcome := Took(count);
      case Interrupt => outcome := Interrupted;
      case Refuse =>
        refusals := refusals + 1;
        outcome := Failed;
    }

    method Flush() returns (ok: bool)
      ensures ok == !flushFails
    {
      ok := !flushFails;
    }
  }

  datatype State = Fresh | DescriptorsWritten | Poisoned

  /** What a run of OBUs adds to the sink. */
  function Appended(definitions: Registry, s: seq<SequenceObu>): Result<seq<u8>> {
    hide WAll;
    var w :- WAll([], definitions, s);
    if |w| % 8 != 0 then Err(NotByteAligned) else Ok(Pack(w))
  }

  /** The bytes of one unit, refused as `push_temporal_unit` refuses it before writing anything. */
  function UnitBytes(definitions: Registry, u: TemporalUnit): Result<seq<u8>> {
    var _ :- ValidateTemporalUnit(u.audioFrames);
    Appended(definitions, FlatUnit(u))
  }

  /**
    How an operation that should append `wanted` ends: refused before anything is written, done whole, or
    cut short by the sink, with a prefix out and the writer poisoned.
  */
  ghost predicate Ended(
      r: Result<()>, wanted: Result<seq<u8>>, was: State, now: State, before: seq<u8>, after: seq<u8>, fault: bool)
  {
    match wanted
    case Err(e) => r == Err(e) && now == was && after == before
    case Ok(bytes) =>
      || (r == Ok(()) && now == DescriptorsWritten && after == before + bytes)
      || (r.Err? && now == Poisoned && fault && exists k: nat | k <= |bytes| :: after == before + bytes[..k])
  }

  lemma EndsRefused(e: Error, s: State, before: seq<u8>, fault: bool)
    ensures Ended(Err(e), Err(e), s, s, before, before, fault)
  {
  }

  lemma EndsDone(bytes: seq<u8>, was: State, before: seq<u8>, fault: bool)
    ensures Ended(Ok(()), Ok(bytes), was, DescriptorsWritten, before, before + bytes, fault)
  {
  }

  lemma EndsTorn(e: Error, bytes: seq<u8>, was: State, before: seq<u8>, sent: nat)
    requires sent <= |bytes|
    ensures Ended(Err(e), Ok(bytes), was, Poisoned, before, before + bytes[..sent], true)
  {
  }

  class SequenceWriter {
    const sink: Sink
    var state: State
    const scratch: BitWriter
    var definitions: Registry
    var bytesWritten: u64

    /** What the sink held before this writer. */
    ghost const base: seq<u8>
    /** The whole prologue and whole units that are out. */
    ghost var committed: seq<u8>
    ghost var began: bool
    ghost var descriptors: DescriptorSet
    ghost var units: seq<TemporalUnit>
    /** After poisoning: the bytes of the operation that was cut short, and how many of them are out. */
    ghost var pending: seq<u8>
    ghost var torn: nat

    /** The whole prologue and whole units are the batch bytes of what was pushed. */
    ghost predicate Whole()
      reads this
    {
      && (!began ==> committed == [] && units == [])
      && (began ==> WriteSequence(FromParts(descriptors, units)) == Ok(committed))
      && (state == Fresh ==> !began) && (state == DescriptorsWritten ==> began)
      && (began ==> definitions == FromDescriptors(descriptors))
    }

    /** What the sink holds, and what the writer has counted. */
    ghost predicate Accounted()
      reads this`state, this`bytesWritten, this`committed, this`pending, this`torn, sink
    {
      && torn <= |pending| && (state != Poisoned ==> torn == 0)
      && sink.accepted == base + committed + pending[..torn]
      && (bytesWritten == |sink.accepted| - |base| || (state == Poisoned && |sink.accepted| - |base| >= U64_LIMIT))
    }

    ghost predicate Valid()
      reads this, sink, scratch
    {
      scratch.Valid() && Whole() && Accounted()
    }

    constructor (sink: Sink)
      ensures Valid() && this.sink == sink && fresh(scratch)
      ensures state == Fresh && bytesWritten == 0 && base == sink.accepted && units == []
    {
      this.sink := sink;
      state := Fresh;
      scratch := new BitWriter();
      definitions := [];
      bytesWritten := 0;
      base := sink.accepted;
      committed := [];
      began := false;
      units := [];
      pending := [];
      torn := 0;
      new;
      assert sink.accepted == sink.accepted + [] + [][..0];
    }

    /** The only two causes of poisoning: the sink refused a write just now, or the byte counter overflowed. */
    ghost predicate CutShort(e: Error, refusalsBefore: nat)
      reads sink
    {
      || (e == SinkWrite && sink.refusals == refusalsBefore + 1)
      || (e == ObuSizeOverflow && sink.refusals == refusalsBefore && |sink.accepted| - |base| >= U64_LIMIT)
    }

    /** `flush_scratch`: retried on interrupts, poisoned by anything else that is not progress. */
    method FlushScratch() returns (r: Result<()>, ghost sent: nat)
      requires scratch.Valid() && |scratch.Bits()| % 8 == 0 && state != Poisoned
      requires bytesWritten == |sink.accepted| - |base|
      modifies this`state, this`bytesWritten, sink
      ensures sent <= |Pack(scratch.Bits())| && sink.accepted == old(sink.accepted) + Pack(scratch.Bits())[..sent]
      ensures r.Ok? ==>
                && state == old(state) && sent == |Pack(scratch.Bits())| && bytesWritten == |sink.accepted| - |base|
                && sink.refusals == old(sink.refusals)
      ensures r.Err? ==>
                && state == Poisoned && CutShort(r.error, old(sink.refusals))
                && (r.error == SinkWrite ==> bytesWritten == |sink.accepted| - |base|)
    {
      hide BytesBits, Pack, scratch.Bits;
      var whole := scratch.AsBytes();
      var bytes := whole.value;
      var done := 0;
      assert sink.accepted == sink.accepted + bytes[..0];
      while done < |bytes|
        invariant done <= |bytes| && state == old(state)
        invariant sink.accepted == old(sink.accepted) + bytes[..done]
        invariant bytesWritten == |sink.accepted| - |base| && sink.refusals == old(sink.refusals)
        decreases |sink.script|, |bytes| - done
      {
        var remaining := bytes[done..];
        var outcome := sink.Write(remaining);
        match outcome {
          case Took(count) =>
            assert bytes[..done] + remaining[..count] == bytes[..done + count];
            if count == 0 {
              state := Poisoned;
              return Err(SinkWrite), done;
            }
            if bytesWritten + count >= U64_LIMIT {
              state := Poisoned;
              return Err(ObuSizeOverflow), done + count;
            }
            bytesWritten := bytesWritten + count;
            done := done + count;
          case Interrupted =>
          case Failed =>
            state := Poisoned;
            return Err(SinkWrite), done;
        }
      }
      assert bytes[..done] == bytes;
      r, sent := Ok(()), done;
    }

    method CheckState(expected: State) returns (r: Result<()>)
      ensures r.Ok? <==> state == expected
      ensures state == Poisoned && expected != Poisoned ==> r == Err(SequenceWriterPoisoned)
      ensures state == Fresh && expected == DescriptorsWritten ==> r == Err(DescriptorsNotWritten)
      ensures state == DescriptorsWritten && expected == Fresh ==> r == Err(DescriptorsAlreadyWritten)
    {
      if state == expected {
        return Ok(());
      }
      match state
      case Poisoned => r := Err(SequenceWriterPoisoned);
      case Fresh => r := Err(DescriptorsNotWritten);
      case DescriptorsWritten => r := Err(DescriptorsAlreadyWritten);
    }

    /** The bookkeeping of an operation that the sink cut short. */
    ghost method Tear(bytes: seq<u8>, sent: nat)
      requires scratch.Valid() && Whole() && state == Poisoned && sent <= |bytes|
      requires sink.accepted == base + committed + bytes[..sent]
      requires bytesWritten == |sink.accepted| - |base| || |sink.accepted| - |base| >= U64_LIMIT
      modifies this`pending, this`torn
      ensures Valid()
    {
      pending, torn := bytes, sent;
    }

    /** The bookkeeping of an operation that is out whole. */
    ghost method Commit(set_: DescriptorSet, all: seq<TemporalUnit>, bytes: seq<u8>)
      requires scratch.Valid() && state == DescriptorsWritten
      requires sink.accepted == base + committed + bytes && bytesWritten == |sink.accepted| - |base|
      requires WriteSequence(FromParts(set_, all)) == Ok(committed + bytes) && definitions == FromDescriptors(set_)
      modifies this`committed, this`began, this`descriptors, this`units, this`pending, this`torn
      ensures Valid() && descriptors == set_ && units == all && committed == old(committed) + bytes
    {
      hide WriteSequence, FromParts, FromDescriptors;
      assert base + (committed + bytes) + [][..0] == base + committed + bytes;
      committed, began, descriptors, units := committed + bytes, true, set_, all;
      pending, torn := [], 0;
    }

    lemma Untorn()
      requires Valid() && state != Poisoned
      ensures sink.accepted == base + committed && bytesWritten == |sink.accepted| - |base|
    {
      assert pending[..0] == [] && base + committed + [] == base + committed;
    }

    /** `push_descriptors`: the whole prologue is serialised before a byte of it reaches the sink. */
    method PushDescriptors(set_: DescriptorSet) returns (r: Result<()>)
      requires Valid()
      modifies this, sink, scratch
      ensures Valid()
      ensures old(state) == Fresh ==>
                Ended(r, Appended([], FlatDescriptors(set_)), Fresh, state, old(sink.accepted), sink.accepted,
                      r.Err? && CutShort(r.error, old(sink.refusals)))
      ensures r.Ok? || state == old(state) ==> sink.refusals == old(sink.refusals)
      ensures old(state) == Fresh && r.Ok? ==> descriptors == set_ && units == []
      ensures old(state) == DescriptorsWritten ==> r == Err(DescriptorsAlreadyWritten)
      ensures old(state) == Poisoned ==> r == Err(SequenceWriterPoisoned)
      ensures old(state) != Fresh ==> state == old(state) && sink.accepted == old(sink.accepted) && units == old(units)
    {
      hide Ended, Appended, FlatDescriptors, FromDescriptors, FromParts, WriteSequence, Pack, WAll;
      hide scratch.Bits, scratch.Valid, Accounted;
      ghost var before, wanted := sink.accepted, Appended([], FlatDescriptors(set_));
      var _ :- CheckState(Fresh);
      Untorn();
      definitions := RegistryFrom(set_);
      scratch.Clear();
      PrologueAppended(set_);
      var written := WriteDescriptors(scratch, set_);
      if written.Err? {
        EndsRefused(written.error, Fresh, before, CutShort(written.error, old(sink.refusals)));
        return Err(written.error);
      }
      ghost var bytes := wanted.value;
      var outcome, sent := FlushScratch();
      assert before + bytes[..sent] == base + committed + bytes[..sent];
      if outcome.Err? {
        Tear(bytes, sent);
        EndsTorn(outcome.error, bytes, Fresh, before, sent);
        return Err(outcome.error);
      }
      assert bytes[..sent] == bytes && committed + bytes == bytes;
      state := DescriptorsWritten;
      Commit(set_, [], bytes);
      EndsDone(bytes, Fresh, before, false);
      r := Ok(());
    }

    /** `preflight_temporal_unit`: every OBU is serialised, and only the scratch buffer is touched. */
    method Preflight(u: TemporalUnit) returns (r: Result<()>)
      requires scratch.Valid()
      modifies scratch
      ensures scratch.Valid()
      ensures UnitBytes(definitions, u).Ok? ==> r == Ok(())
      ensures UnitBytes(definitions, u).Err? ==> r == Err(UnitBytes(definitions, u).error)
    {
      hide WAll, FlatUnit, WSeqObu, ValidateTemporalUnit, scratch.Bits, scratch.Valid;
      var _ :- ValidateUnit(u.audioFrames);
      var obus := FlatUnit(u);
      UnitTemporal(u);
      NothingWritten(definitions, obus);
      AppendedIs(definitions, obus);
      for i := 0 to |obus|
        invariant scratch.Valid() && WAll([], definitions, obus[..i]).Ok?
      {
        UnitStep(definitions, obus, i);
        scratch.Clear();
        var _ :- WriteOneObu(scratch, definitions, obus[i]);
      }
      assert obus[..|obus|] == obus;
      r := Ok(());
    }

    /** The OBUs of a preflighted unit, one by one; they serialise again exactly as they did. */
    method Emit(obus: seq<SequenceObu>, ghost bytes: seq<u8>) returns (r: Result<()>, ghost sent: nat)
      requires scratch.Valid() && state == DescriptorsWritten && bytesWritten == |sink.accepted| - |base|
      requires (forall k | 0 <= k < |obus| :: IsTemporal(obus[k])) && Appended(definitions, obus) == Ok(bytes)
      modifies this`state, this`bytesWritten, sink, scratch
      ensures scratch.Valid() && sent <= |bytes| && sink.accepted == old(sink.accepted) + bytes[..sent]
      ensures r.Ok? ==>
                && state == DescriptorsWritten && sent == |bytes| && bytesWritten == |sink.accepted| - |base|
                && sink.refusals == old(sink.refusals)
      ensures r.Err? ==>
                && state == Poisoned && CutShort(r.error, old(sink.refusals))
                && (r.error == SinkWrite ==> bytesWritten == |sink.accepted| - |base|)
    {
      hide WAll, WSeqObu, Pack, Appended, scratch.Bits, scratch.Valid;
      NothingWritten(definitions, obus);
      sent := 0;
      for i := 0 to |obus|
        invariant scratch.Valid() && state == DescriptorsWritten && bytesWritten == |sink.accepted| - |base|
        invariant sent == |PackedPrefix(definitions, obus, i)| && PackedPrefix(definitions, obus, i) <= bytes
        invariant sink.accepted == old(sink.accepted) + PackedPrefix(definitions, obus, i)
        invariant sink.refusals == old(sink.refusals)
      {
        EmitStep(definitions, obus, i, bytes);
        scratch.Clear();
        var serialised := WriteOneObu(scratch, definitions, obus[i]);
        ghost var before, next := PackedPrefix(definitions, obus, i), Pack(scratch.Bits());
        var outcome, more := FlushScratch();
        PrefixOfPrefix(old(sink.accepted), before, next, more, bytes);
        if outcome.Err? {
          return Err(outcome.error), |before| + more;
        }
        sent := |before| + more;
      }
      AllPacked(definitions, obus, bytes);
      r := Ok(());
    }

    /**
      `push_temporal_unit`: preflighted, then emitted OBU by OBU. A refused unit leaves the sink as it was; a
      unit cut short by the sink poisons the writer for good.
    */
    method PushTemporalUnit(u: TemporalUnit) returns (r: Result<()>)
      requires Valid()
      modifies this, sink, scratch
      ensures Valid()
      ensures old(state) == DescriptorsWritten ==>
                Ended(r, UnitBytes(old(definitions), u), DescriptorsWritten, state, old(sink.accepted), sink.accepted,
                      r.Err? && CutShort(r.error, old(sink.refusals)))
      ensures r.Ok? || state == old(state) ==> sink.refusals == old(sink.refusals)
      ensures old(state) == DescriptorsWritten && r.Ok? ==> units == old(units) + [u]
      ensures r.Err? ==> units == old(units)
      ensures descriptors == old(descriptors)
      ensures old(state) == Fresh ==> r == Err(DescriptorsNotWritten)
      ensures old(state) == Poisoned ==> r == Err(SequenceWriterPoisoned)
      ensures old(state) != DescriptorsWritten ==> state == old(state) && sink.accepted == old(sink.accepted)
    {
      hide Ended, Appended, FlatUnit, FromDescriptors, FromParts, WriteSequence, ValidateTemporalUnit, scratch.Bits,
           scratch.Valid, Accounted;
      ghost var before, wanted := sink.accepted, UnitBytes(definitions, u);
      var _ :- CheckState(DescriptorsWritten);
      Untorn();
      var passed := Preflight(u);
      if passed.Err? {
        EndsRefused(passed.error, DescriptorsWritten, before, CutShort(passed.error, old(sink.refusals)));
        return Err(passed.error);
      }
      UnitTemporal(u);
      ghost var bytes := wanted.value;
      var outcome, sent := Emit(FlatUnit(u), bytes);
      assert before + bytes[..sent] == base + committed + bytes[..sent];
      if outcome.Err? {
        Tear(bytes, sent);
        EndsTorn(outcome.error, bytes, DescriptorsWritten, before, sent);
        return Err(outcome.error);
      }
      assert bytes[..sent] == bytes;
      UnitCommitted(descriptors, units, u, committed, bytes);
      Commit(descriptors, units + [u], bytes);
      EndsDone(bytes, DescriptorsWritten, before, false);
      r := Ok(());
    }

    /** `finish`: flushes the sink; there is no trailer to write. */
    method Finish() returns (r: Result<()>)
      requires Valid()
      ensures state == Poisoned ==> r == Err(SequenceWriterPoisoned)
      ensures state != Poisoned ==> r == if sink.flushFails then Err(SinkWrite) else Ok(())
      ensures r.Ok? && state == DescriptorsWritten ==>
                sink.accepted == base + committed && WriteSequence(FromParts(descriptors, units)) == Ok(committed)
    {
      if state == Poisoned {
        return Err(SequenceWriterPoisoned);
      }
      assert pending[..0] == [] && base + committed + [] == base + committed;
      var ok := sink.Flush();
      r := if ok then Ok(()) else Err(SinkWrite);
    }
  }

  /** The bytes of the first `i` OBUs of a unit. */
  ghost function PackedPrefix(definitions: Registry, s: seq<SequenceObu>, i: nat): seq<u8>
    requires i <= |s|
  {
    var w := WAll([], definitions, s[..i]);
    if w.Ok? && |w.value| % 8 == 0 then Pack(w.value) else []
  }

  lemma NothingWritten(definitions: Registry, s: seq<SequenceObu>)
    ensures WAll([], definitions, s[..0]) == Ok([]) && PackedPrefix(definitions, s, 0) == []
  {
  }

  lemma AppendedIs(definitions: Registry, s: seq<SequenceObu>)
    ensures WAll([], definitions, s).Err? ==> Appended(definitions, s) == Err(WAll([], definitions, s).error)
    ensures WAll([], definitions, s).Ok? ==>
              && |WAll([], definitions, s).value| % 8 == 0
              && Appended(definitions, s) == Ok(Pack(WAll([], definitions, s).value))
  {
    if WAll([], definitions, s).Ok? {
      WAllAligned([], definitions, s);
    }
  }

  lemma EmitStep(definitions: Registry, s: seq<SequenceObu>, i: nat, bytes: seq<u8>)
    requires i < |s| && (forall k | 0 <= k < |s| :: IsTemporal(s[k])) && Appended(definitions, s) == Ok(bytes)
    ensures var next := WSeqObu([], definitions, s[i]);
            && next.Ok? && |next.value| % 8 == 0
            && PackedPrefix(definitions, s, i + 1) == PackedPrefix(definitions, s, i) + Pack(next.value)
            && PackedPrefix(definitions, s, i + 1) <= bytes
  {
    hide WAll, WSeqObu, Pack;
    AppendedIs(definitions, s);
    var whole := WAll([], definitions, s).value;
    PrefixWrites([], definitions, s, i);
    PrefixWrites([], definitions, s, i + 1);
    UnitStep(definitions, s, i);
    var a, b := WAll([], definitions, s[..i]).value, WSeqObu([], definitions, s[i]).value;
    PackJoin(a, b);
    assert whole == (a + b) + whole[|a + b|..];
    PackJoin(a + b, whole[|a + b|..]);
  }

  lemma AllPacked(definitions: Registry, s: seq<SequenceObu>, bytes: seq<u8>)
    requires Appended(definitions, s) == Ok(bytes)
    ensures PackedPrefix(definitions, s, |s|) == bytes && bytes[..|bytes|] == bytes
  {
    hide WAll, Pack;
    assert s[..|s|] == s;
  }

  lemma PrefixOfPrefix(start: seq<u8>, done: seq<u8>, next: seq<u8>, sent: nat, whole: seq<u8>)
    requires sent <= |next| && done + next <= whole
    ensures start + done + next[..sent] == start + whole[..|done| + sent] && |done| + sent <= |whole|
    ensures sent == |next| ==> next[..sent] == next && start + done + next == start + (done + next)
  {
    assert whole[..|done| + sent] == done + next[..sent];
  }

  lemma PrologueAppended(set_: DescriptorSet)
    ensures var prologue, wanted := WAll([], [], FlatDescriptors(set_)), Appended([], FlatDescriptors(set_));
            && (prologue.Err? ==> wanted == Err(prologue.error))
            && (prologue.Ok? ==> |prologue.value| % 8 == 0 && wanted == Ok(Pack(prologue.value)))
    ensures WriteSequence(FromParts(set_, [])) == Appended([], FlatDescriptors(set_))
  {
    hide WAll, FlatDescriptors, Pack;
    AppendedIs([], FlatDescriptors(set_));
    assert FlatDescriptors(set_) + [] == FlatDescriptors(set_);
  }

  /** The batch bytes with one more unit. */
  lemma UnitCommitted(set_: DescriptorSet, units: seq<TemporalUnit>, u: TemporalUnit, committed: seq<u8>,
                      bytes: seq<u8>)
    requires WriteSequence(FromParts(set_, units)) == Ok(committed)
    requires Appended(FromDescriptors(set_), FlatUnit(u)) == Ok(bytes)
    ensures WriteSequence(FromParts(set_, units + [u])) == Ok(committed + bytes)
  {
    hide WAll, FromParts, FlatUnit, FromDescriptors, Pack;
    BatchSnoc(set_, units, u);
    PackJoin(WAll([], [], FromParts(set_, units)).value, WAll([], FromDescriptors(set_), FlatUnit(u)).value);
  }

  /** `from_descriptors`. */
  method RegistryFrom(set_: DescriptorSet) returns (entries: Registry)
    ensures entries == FromDescriptors(set_)
  {
    hide ObserveElement, ObserveMix;
    var registry := new ParamDefinitionRegistry();
    var elements := SortedElements(set_);
    assert elements[0..] == elements;
    for i := 0 to |elements|
      invariant ObserveElements(registry.entries, elements[i..]) == ObserveElements([], elements)
    {
      assert elements[i..][0] == elements[i] && elements[i..][1..] == elements[i + 1..];
      registry.ObserveAudioElement(elements[i]);
    }
    ghost var between := registry.entries;
    assert set_.mixPresentations[0..] == set_.mixPresentations;
    for i := 0 to |set_.mixPresentations|
      invariant ObserveMixes(registry.entries, set_.mixPresentations[i..]) ==
                ObserveMixes(between, set_.mixPresentations)
    {
      assert set_.mixPresentations[i..][0] == set_.mixPresentations[i]
          && set_.mixPresentations[i..][1..] == set_.mixPresentations[i + 1..];
      registry.ObserveMixPresentation(set_.mixPresentations[i]);
    }
    entries := registry.entries;
  }

  /** `write_descriptors`: the header, Codec Configs and Audio Elements ascending by id, presentations as listed. */
  method WriteDescriptors(w: BitWriter, set_: DescriptorSet) returns (r: Result<()>)
    requires w.Valid()
    modifies w
    ensures w.Valid() && Did(WAll(old(w.Bits()), [], FlatDescriptors(set_)), r, w.Bits())
  {
    hide WAll, WSeqObu, Observe, w.Bits, w.Valid, SortedCodecs, SortedElements, FlatDescriptors, OwnedAt;
    hide OwnedHeader, OwnedCodec, OwnedElement, OwnedMix;
    var codecs, elements, mixes := SortedCodecs(set_), SortedElements(set_), set_.mixPresentations;
    ghost var flat, registry, target := FlatDescriptors(set_), [], WAll(w.Bits(), [], FlatDescriptors(set_));
    ghost var k := 0;
    PrologueParts(set_);
    assert flat[0..] == flat;
    Next(w.Bits(), registry, set_, 0);
    var _ :- WriteOneObu(w, [], OwnedHeader(set_.sequenceHeader));
    registry, k := Observe(registry, flat[0]), 1;
    for i := 0 to |codecs|
      invariant w.Valid() && k == 1 + i && WAll(w.Bits(), registry, flat[k..]) == target
    {
      CodecPart(set_, i);
      Next(w.Bits(), registry, set_, k);
      var _ :- WriteOneObu(w, [], OwnedCodec(codecs[i]));
      registry, k := Observe(registry, flat[k]), k + 1;
    }
    for i := 0 to |elements|
      invariant w.Valid() && k == 1 + |codecs| + i && WAll(w.Bits(), registry, flat[k..]) == target
    {
      ElementPart(set_, i);
      Next(w.Bits(), registry, set_, k);
      var _ :- WriteOneObu(w, [], OwnedElement(elements[i]));
      registry, k := Observe(registry, flat[k]), k + 1;
    }
    for i := 0 to |mixes|
      invariant w.Valid() && k == 1 + |codecs| + |elements| + i && WAll(w.Bits(), registry, flat[k..]) == target
    {
      MixPart(set_, i);
      Next(w.Bits(), registry, set_, k);
      var _ :- WriteOneObu(w, [], OwnedMix(mixes[i]));
      registry, k := Observe(registry, flat[k]), k + 1;
    }
    assert flat[|flat|..] == [];
    AllWritten(w.Bits(), registry);
    r := Ok(());
  }

  lemma PrologueParts(set_: DescriptorSet)
    ensures |FlatDescriptors(set_)| == 1 + |SortedCodecs(set_)| + |SortedElements(set_)| + |set_.mixPresentations|
    ensures OwnedAt(set_, 0) == OwnedHeader(set_.sequenceHeader)
  {
    hide SortedCodecs, SortedElements, OwnedHeader;
  }

  lemma CodecPart(set_: DescriptorSet, i: nat)
    requires i < |SortedCodecs(set_)|
    ensures 1 + i < |FlatDescriptors(set_)| && OwnedAt(set_, 1 + i) == OwnedCodec(SortedCodecs(set_)[i])
  {
    hide SortedCodecs, SortedElements, OwnedCodec, FlatDescriptors;
    PrologueParts(set_);
  }

  lemma ElementPart(set_: DescriptorSet, i: nat)
    requires i < |SortedElements(set_)|
    ensures var k := 1 + |SortedCodecs(set_)| + i;
            k < |FlatDescriptors(set_)| && OwnedAt(set_, k) == OwnedElement(SortedElements(set_)[i])
  {
    hide SortedCodecs, SortedElements, OwnedElement, FlatDescriptors;
    PrologueParts(set_);
  }

  lemma MixPart(set_: DescriptorSet, i: nat)
    requires i < |set_.mixPresentations|
    ensures var k := 1 + |SortedCodecs(set_)| + |SortedElements(set_)| + i;
            k < |FlatDescriptors(set_)| && OwnedAt(set_, k) == OwnedMix(set_.mixPresentations[i])
  {
    hide SortedCodecs, SortedElements, OwnedMix, FlatDescriptors;
    PrologueParts(set_);
  }

  lemma AllWritten(w: BitSeq, registry: Registry)
    ensures WAll(w, registry, []) == Ok(w)
  {
  }

  /** The descriptor that number `k` of the prologue stands for, as its owner passes it. */
  ghost function OwnedAt(set_: DescriptorSet, k: nat): SequenceObu
    requires k < |FlatDescriptors(set_)|
  {
    var codecs, elements := SortedCodecs(set_), SortedElements(set_);
    if k == 0 then OwnedHeader(set_.sequenceHeader)
    else if k < 1 + |codecs| then OwnedCodec(codecs[k - 1])
    else if k < 1 + |codecs| + |elements| then OwnedElement(elements[k - 1 - |codecs|])
    else OwnedMix(set_.mixPresentations[k - 1 - |codecs| - |elements|])
  }

  lemma Next(w: BitSeq, registry: Registry, set_: DescriptorSet, k: nat)
    requires k < |FlatDescriptors(set_)|
    ensures var owned, s := WSeqObu(w, [], OwnedAt(set_, k)), FlatDescriptors(set_);
            && (owned.Err? ==> WAll(w, registry, s[k..]) == Err(owned.error))
            && (owned.Ok? ==> WAll(w, registry, s[k..]) == WAll(owned.value, Observe(registry, s[k]), s[k + 1..]))
  {
    hide WAll, WSeqObu, Observe, SortedCodecs, SortedElements;
    var codecs, elements, mixes := SortedCodecs(set_), SortedElements(set_), set_.mixPresentations;
    var s := FlatDescriptors(set_);
    if k == 0 {
      HeaderIsSilent(w, [], set_.sequenceHeader);
    } else if k < 1 + |codecs| {
      CodecIsSilent(w, [], codecs[k - 1]);
    } else if k < 1 + |codecs| + |elements| {
      ElementIsSilent(w, [], elements[k - 1 - |codecs|]);
    } else {
      MixIsSilent(w, [], mixes[k - 1 - |codecs| - |elements|]);
    }
    PrologueStep(w, registry, s, k, OwnedAt(set_, k));
  }

  /**
    `write_sequence`, and with it the refinement: whenever the prologue, every unit and the flush succeed,
    against any sink, the sink holds exactly the bytes the batch writer gives for the flattened parts.
  */
  method WriteSequenceTo(sink: Sink, set_: DescriptorSet, units: seq<TemporalUnit>) returns (r: Result<()>)
    modifies sink
    ensures r.Ok? ==>
              && WriteSequence(FromParts(set_, units)).Ok?
              && sink.accepted == old(sink.accepted) + WriteSequence(FromParts(set_, units)).value
  {
    hide Ended, Appended, UnitBytes, FlatDescriptors, FromParts, WriteSequence;
    var writer := new SequenceWriter(sink);
    var _ :- writer.PushDescriptors(set_);
    EndsInOrder(Appended([], FlatDescriptors(set_)), Fresh, writer.state, old(sink.accepted), sink.accepted, false);
    for i := 0 to |units|
      invariant writer.Valid() && fresh(writer) && fresh(writer.scratch) && writer.sink == sink
      invariant writer.state == DescriptorsWritten && writer.base == old(sink.accepted)
      invariant writer.descriptors == set_ && writer.units == units[..i]
    {
      ghost var before, definitions := sink.accepted, writer.definitions;
      var _ :- writer.PushTemporalUnit(units[i]);
      EndsInOrder(UnitBytes(definitions, units[i]), DescriptorsWritten, writer.state, before, sink.accepted, false);
      assert units[..i + 1] == units[..i] + [units[i]];
    }
    assert units[..|units|] == units;
    r := writer.Finish();
  }

  lemma EndsInOrder(wanted: Result<seq<u8>>, was: State, now: State, before: seq<u8>, after: seq<u8>, fault: bool)
    requires Ended(Ok(()), wanted, was, now, before, after, fault)
    ensures wanted.Ok? && now == DescriptorsWritten && after == before + wanted.value
  {
  }
}
