/**
  Who governs a Parameter Block: in a sequence that parses, the first descriptor that defines its parameter
  decides what the block carries, layer by layer for recon gains.
*/
module Governance {
  import opened Core
  import opened Bits
  import opened Leb128
  import opened Obus
  import opened ParamDefinitions
  import opened ParameterBlocks
  import opened AudioElements
  import opened MixPresentations
  import opened SequenceObus
  import opened Sequences
  import opened Streams

  // ------------------------------------------------------------- who defines what

  predicate ParamDefines(p: ElementParam, id: u32) {
    !p.ExtensionParam? && p.definition.parameterId == id
  }

  predicate SubMixDefines(s: SubMix, id: u32) {
    || (exists k | 0 <= k < |s.elements| :: s.elements[k].mixGain.definition.parameterId == id)
    || s.outputMixGain.definition.parameterId == id
  }

  /** An OBU that defines the parameter `id`: an Audio Element, or a Mix Presentation by one of its gains. */
  predicate Defines(o: SequenceObu, id: u32) {
    match o
    case Element(e) => exists k | 0 <= k < |e.payload.params| :: ParamDefines(e.payload.params[k], id)
    case Mix(m) => exists k | 0 <= k < |m.payload.subMixes| :: SubMixDefines(m.payload.subMixes[k], id)
    case _ => false
  }

  predicate NoneDefines(s: seq<SequenceObu>, id: u32) {
    forall i | 0 <= i < |s| :: !Defines(s[i], id)
  }

  /** OBU `i` is the first to define `id`, and before block `j`. */
  predicate Owner(s: seq<SequenceObu>, i: nat, id: u32, j: nat) {
    && i < j < |s| && Defines(s[i], id) && NoneDefines(s[..i], id)
    && s[j].Block? && s[j].block.payload.parameterId == id
  }

  /** Parameter `k` is the first of its element to define `id`. */
  predicate FirstParam(params: seq<ElementParam>, k: nat, id: u32) {
    k < |params| && ParamDefines(params[k], id) && forall n | 0 <= n < k :: !ParamDefines(params[n], id)
  }

  // ------------------------------------------------------------- the registry

  /** What an OBU adds to the registry. */
  function Added(o: SequenceObu): Registry {
    match o
    case Element(e) => ElementDefinitions(e.payload.params, ReconGates(e.payload.elementType))
    case Mix(m) => MixDefinitions(m.payload.subMixes)
    case _ => []
  }

  lemma AddedIs(registry: Registry, o: SequenceObu)
    ensures Observe(registry, o) == registry + Added(o)
  {
    assert registry + [] == registry;
  }

  lemma {:induction false} GetJoin(a: Registry, b: Registry, id: u32)
    ensures Get(a + b, id) == if Get(a, id).Some? then Get(a, id) else Get(b, id)
  {
    if a == [] {
      assert a + b == b;
    } else {
      assert (a + b)[0] == a[0] && (a + b)[1..] == a[1..] + b;
      GetJoin(a[1..], b, id);
    }
  }

  /** A parameter that is not an extension is defined once, by the first that carries the id. */
  lemma {:induction false} ElementDefines(params: seq<ElementParam>, gates: seq<bool>, id: u32)
    ensures Get(ElementDefinitions(params, gates), id).Some? <==>
            exists k | 0 <= k < |params| :: ParamDefines(params[k], id)
    ensures forall k: nat | FirstParam(params, k, id) ::
              Get(ElementDefinitions(params, gates), id) ==
              Some(Registered(params[k].definition, if params[k].DemixingParam? then DemixingContext
                                                    else ReconGainContext(gates)))
  {
    if params != [] {
      ElementDefines(params[1..], gates, id);
      if ParamDefines(params[0], id) {
        assert forall k: nat | FirstParam(params, k, id) :: k == 0;
      } else {
        forall k: nat | FirstParam(params, k, id) ensures FirstParam(params[1..], k - 1, id) {
          assert forall n | 0 <= n < k - 1 :: params[1..][n] == params[n + 1];
        }
        if k: nat :| k < |params[1..]| && ParamDefines(params[1..][k], id) {
          assert ParamDefines(params[k + 1], id);
        }
        if k: nat :| k < |params| && ParamDefines(params[k], id) {
          assert params[1..][k - 1] == params[k];
        }
      }
    }
  }

  lemma {:induction false} GainsDefine(registry: Registry, id: u32)
    requires forall r | r in registry :: r.context == MixGainContext
    ensures Get(registry, id).Some? ==> Get(registry, id).value.context == MixGainContext
  {
  }

  lemma OneSubMixDefines(s: SubMix, id: u32)
    ensures var own := GainDefinitions(s.elements) + [Registered(s.outputMixGain.definition, MixGainContext)];
            && (Get(own, id).Some? <==> SubMixDefines(s, id))
            && (Get(own, id).Some? ==> Get(own, id).value.context == MixGainContext)
  {
    var gains := GainDefinitions(s.elements);
    var own := gains + [Registered(s.outputMixGain.definition, MixGainContext)];
    assert own[|gains|] in own;
    if k: nat :| k < |s.elements| && s.elements[k].mixGain.definition.parameterId == id {
      assert own[k].definition.parameterId == id && own[k] in own;
    }
  }

  lemma {:induction false} MixDefines(subMixes: seq<SubMix>, id: u32)
    ensures Get(MixDefinitions(subMixes), id).Some? <==>
            exists k | 0 <= k < |subMixes| :: SubMixDefines(subMixes[k], id)
    ensures Get(MixDefinitions(subMixes), id).Some? ==>
              Get(MixDefinitions(subMixes), id).value.context == MixGainContext
  {
    hide SubMixDefines, GainDefinitions;
    if subMixes != [] {
      var s, rest := subMixes[0], subMixes[1..];
      MixDefines(rest, id);
      OneSubMixDefines(s, id);
      GetJoin(GainDefinitions(s.elements) + [Registered(s.outputMixGain.definition, MixGainContext)],
              MixDefinitions(rest), id);
      assert forall k | 0 <= k < |rest| :: rest[k] == subMixes[k + 1];
      if k: nat :| k < |rest| && SubMixDefines(rest[k], id) {
        assert SubMixDefines(subMixes[k + 1], id);
      }
      if k: nat :| k < |subMixes| && SubMixDefines(subMixes[k], id) {
        assert k == 0 || SubMixDefines(rest[k - 1], id);
      }
    }
  }

  /** An OBU adds an entry for exactly the ids it defines. */
  lemma AddedDefines(o: SequenceObu, id: u32)
    ensures Get(Added(o), id).Some? <==> Defines(o, id)
    ensures o.Mix? && Defines(o, id) ==> Get(Added(o), id).value.context == MixGainContext
    ensures o.Element? ==>
              forall k: nat | FirstParam(o.element.payload.params, k, id) ::
                Get(Added(o), id) ==
                Some(Registered(o.element.payload.params[k].definition,
                                if o.element.payload.params[k].DemixingParam? then DemixingContext
                                else ReconGainContext(ReconGates(o.element.payload.elementType))))
  {
    hide ParamDefines, SubMixDefines, ReconGates, FirstParam;
    match o
    case Element(e) => ElementDefines(e.payload.params, ReconGates(e.payload.elementType), id);
    case Mix(m) => MixDefines(m.payload.subMixes, id);
    case _ =>
  }

  /** What a registry holds for `id` after a run: what it held before, or what the first definer added. */
  lemma {:induction false} AfterDefines(registry: Registry, s: seq<SequenceObu>, id: u32)
    ensures Get(registry, id).Some? ==> Get(After(registry, s), id) == Get(registry, id)
    ensures Get(registry, id).None? ==> (Get(After(registry, s), id).None? <==> NoneDefines(s, id))
    ensures forall i: nat | Get(registry, id).None? && i < |s| && Defines(s[i], id) && NoneDefines(s[..i], id) ::
              Get(After(registry, s), id) == Get(Added(s[i]), id)
    decreases |s|
  {
    hide Observe, Defines, Added;
    if s != [] {
      AddedIs(registry, s[0]);
      GetJoin(registry, Added(s[0]), id);
      AddedDefines(s[0], id);
      AfterDefines(Observe(registry, s[0]), s[1..], id);
      FirstOrLater(s, id);
    }
  }

  lemma FirstOrLater(s: seq<SequenceObu>, id: u32)
    requires s != []
    ensures NoneDefines(s, id) <==> !Defines(s[0], id) && NoneDefines(s[1..], id)
    ensures forall i: nat | i < |s| && Defines(s[i], id) && NoneDefines(s[..i], id) ::
              if i == 0 then Defines(s[0], id)
              else !Defines(s[0], id) && s[i] == s[1..][i - 1] && NoneDefines(s[1..][..i - 1], id)
  {
    hide Defines;
    assert forall k | 0 <= k < |s| - 1 :: s[1..][k] == s[k + 1];
    forall i: nat | 0 < i < |s| && Defines(s[i], id) && NoneDefines(s[..i], id)
      ensures !Defines(s[0], id) && NoneDefines(s[1..][..i - 1], id)
    {
      var before, after := s[..i], s[1..][..i - 1];
      assert before[0] == s[0];
      assert forall k | 0 <= k < |after| :: after[k] == before[k + 1];
    }
  }

  // ------------------------------------------------------------- what was read

  /** A block that the definition governing it accepts. */
  predicate Obeys(registry: Registry, block: ParameterBlock) {
    var governing := Get(registry, block.parameterId);
    governing.Some? && ValidateParameterBlock(governing.value.definition, governing.value.context, block).Ok?
  }

  /** Any block that was read obeys, and an opaque one has no definition. */
  lemma ReadObeys(d: BitSeq, p: nat, registry: Registry)
    requires RSeqObu(d, p, registry).Ok?
    ensures var o := RSeqObu(d, p, registry).value.0; o.Block? ==> Obeys(registry, o.block.payload)
  {
    hide RObu, RHeaderParts, RWindow, RParameterBlock, Canon, ValidateParameterBlock, Get, BlockMinimal, RInspectedId;
    hide WParameterBlock;
    var o := RSeqObu(d, p, registry).value.0;
    if o.Block? {
      var h, window, _ := ObuShape(d, p, PBlock(registry));
      CanonStart(window, 0, []);
      var _ := AgainParameterBlock(window, 0, 0, registry, [], []);
    }
  }

  predicate AllObey(registry: Registry, s: seq<SequenceObu>)
    decreases |s|
  {
    s == [] || ((s[0].Block? ==> Obeys(registry, s[0].block.payload)) && AllObey(Observe(registry, s[0]), s[1..]))
  }

  lemma {:induction false} RunObeys(d: BitSeq, p: nat, registry: Registry)
    ensures AllObey(registry, ReadAll(d, p, registry).items)
    decreases |d| - p
  {
    hide RSeqObu, Observe, Obeys;
    if Remaining(d, p) != 0 && RSeqObu(d, p, registry).Ok? {
      var (o, q) := RSeqObu(d, p, registry).value;
      ReadObeys(d, p, registry);
      RunObeys(d, q, Observe(registry, o));
      var rest := ReadAll(d, q, Observe(registry, o)).items;
      assert ([o] + rest)[1..] == rest;
    }
  }

  lemma {:induction false} ObeysAt(registry: Registry, s: seq<SequenceObu>, j: nat)
    requires AllObey(registry, s) && j < |s| && s[j].Block?
    ensures Obeys(After(registry, s[..j]), s[j].block.payload)
    decreases |s|
  {
    hide Observe, Obeys;
    if j == 0 {
      assert s[..0] == [];
    } else {
      ObeysAt(Observe(registry, s[0]), s[1..], j - 1);
      assert s[..j][0] == s[0] && s[..j][1..] == s[1..][..j - 1] && s[1..][j - 1] == s[j];
    }
  }

  lemma BlockObeys(input: seq<u8>, s: seq<SequenceObu>, j: nat)
    requires ParseSequence(input) == Ok(s) && j < |s| && s[j].Block?
    ensures Obeys(After([], s[..j]), s[j].block.payload)
  {
    hide ReadAll, AllObey, Obeys, After;
    RunObeys(BytesBits(input), 0, []);
    ObeysAt([], s, j);
  }

  /** The entry that governs block `j` is the one its owner added. */
  lemma Governed(input: seq<u8>, s: seq<SequenceObu>, i: nat, id: u32, j: nat)
    requires ParseSequence(input) == Ok(s) && Owner(s, i, id, j)
    ensures Get(Added(s[i]), id).Some?
    ensures var Registered(definition, context) := Get(Added(s[i]), id).value;
            ValidateParameterBlock(definition, context, s[j].block.payload).Ok?
  {
    hide ParseSequence, After, Added, Defines, ValidateParameterBlock, Get;
    BlockObeys(input, s, j);
    AfterDefines([], s[..j], id);
    assert Get([], id).None? by { NothingYet(id); }
    assert s[..j][..i] == s[..i];
    AddedDefines(s[i], id);
  }

  lemma NothingYet(id: u32)
    ensures Get([], id).None?
  {
  }

  lemma ValidKinds(definition: ParamDefinition, context: Context, block: ParameterBlock)
    requires ValidateParameterBlock(definition, context, block).Ok?
    ensures forall n | 0 <= n < |block.subblocks| :: KindMatches(context, block.subblocks[n].data)
    ensures context.DemixingContext? || context.ReconGainContext? ==> |block.subblocks| == 1
  {
    hide KindMatches, ExpectedCount;
    forall n | 0 <= n < |block.subblocks| ensures KindMatches(context, block.subblocks[n].data) {
      assert block.subblocks[n] in block.subblocks;
    }
  }

  // ------------------------------------------------------------- what obeying is

  /** Data of the kind of its context, and for recon gain an entry for each gate that is open. */
  predicate DataRule(context: Context, data: ParameterData) {
    match data
    case MixGain(_) => context.MixGainContext?
    case Demixing(_, _) => context.DemixingContext?
    case ReconGain(layers) =>
      context.ReconGainContext? && seq(|layers|, i requires 0 <= i < |layers| => layers[i].Some?) == context.present
    case Raw(_) => context.ReservedContext? && context.definitionType >= 3
  }

  /** The times of a block: its own where its definition has none, and those of its definition elsewhere. */
  predicate TimeRule(definition: ParamDefinition, block: ParameterBlock) {
    var count := |block.subblocks|;
    match (definition.durationFields, block.durationFields)
    case (None, Some(own)) =>
      if own.constantSubblockDuration == 0 then
        DurationSum(block.subblocks) == own.duration &&
        forall n | 0 <= n < count :: block.subblocks[n].duration.Some?
      else
        Fills(count, own.constantSubblockDuration, own.duration) &&
        forall n | 0 <= n < count :: block.subblocks[n].duration.None?
    case (Some(fields), None) =>
      && (if fields.constantSubblockDuration == 0 then count == |fields.subblockDurations|
          else Fills(count, fields.constantSubblockDuration, fields.duration))
      && forall n | 0 <= n < count :: block.subblocks[n].duration.None?
    case _ => false
  }

  lemma FillsOnce(n: nat, m: nat, constant: nat, duration: nat)
    requires Fills(n, constant, duration) && Fills(m, constant, duration)
    ensures n == m
  {
    if n < m {
      MoreFillsMore(n, m - 1, constant);
    } else if m < n {
      MoreFillsMore(m, n - 1, constant);
    }
  }

  lemma MoreFillsMore(a: nat, b: nat, c: nat)
    requires a <= b
    ensures a * c <= b * c
  {
  }

  lemma ImpliedIsFilled(count: nat, constant: u32, duration: u32)
    requires constant > 0
    ensures ImpliedSubblocks(duration, constant).Ok?
    ensures ImpliedSubblocks(duration, constant).value == count <==> Fills(count, constant, duration)
  {
    hide ImpliedSubblocks;
    ImpliedSubblocksIsCeiling(duration, constant);
    var n := ImpliedSubblocks(duration, constant).value;
    assert Fills(n, constant, duration);
    if Fills(count, constant, duration) {
      FillsOnce(n, count, constant, duration);
    }
  }

  lemma KindIsRule(context: Context, data: ParameterData)
    ensures KindMatches(context, data) <==> DataRule(context, data)
  {
    if data.ReconGain? && context.ReconGainContext? {
      var entries := seq(|data.layers|, i requires 0 <= i < |data.layers| => data.layers[i].Some?);
      assert entries == context.present <==>
             |entries| == |context.present| && forall i | 0 <= i < |entries| :: entries[i] == context.present[i];
    }
  }

  lemma CountIsRule(definition: ParamDefinition, block: ParameterBlock)
    requires |block.subblocks| < U32_LIMIT && (block.durationFields.Some? <==> definition.durationFields.None?)
    ensures block.durationFields.Some? ==>
              var own := block.durationFields.value;
              ExpectedCount(definition, block) == Ok(|block.subblocks|) <==>
              own.constantSubblockDuration == 0 ||
              Fills(|block.subblocks|, own.constantSubblockDuration, own.duration)
    ensures block.durationFields.None? ==>
              var fields := definition.durationFields.value;
              ExpectedCount(definition, block) == Ok(|block.subblocks|) <==>
              if fields.constantSubblockDuration == 0 then |block.subblocks| == |fields.subblockDurations|
              else Fills(|block.subblocks|, fields.constantSubblockDuration, fields.duration)
  {
    hide ImpliedSubblocks, Fills;
    if block.durationFields.Some? {
      var own := block.durationFields.value;
      if own.constantSubblockDuration > 0 {
        ImpliedIsFilled(|block.subblocks|, own.constantSubblockDuration, own.duration);
      }
    } else {
      var fields := definition.durationFields.value;
      if fields.constantSubblockDuration > 0 {
        ImpliedIsFilled(|block.subblocks|, fields.constantSubblockDuration, fields.duration);
      }
    }
  }

  /** What a definition and its context accept, exactly. */
  lemma ValidExactly(definition: ParamDefinition, context: Context, block: ParameterBlock)
    ensures ValidateParameterBlock(definition, context, block).Ok? <==>
            && block.parameterId == definition.parameterId && |block.subblocks| < 0x1_0000_0000
            && (forall n | 0 <= n < |block.subblocks| :: DataRule(context, block.subblocks[n].data))
            && (context.DemixingContext? || context.ReconGainContext? ==> |block.subblocks| == 1)
            && TimeRule(definition, block)
  {
    hide KindMatches, DataRule, ExpectedCount, Fills, DurationSum;
    forall n | 0 <= n < |block.subblocks|
      ensures KindMatches(context, block.subblocks[n].data) <==> DataRule(context, block.subblocks[n].data)
    {
      KindIsRule(context, block.subblocks[n].data);
    }
    if |block.subblocks| < U32_LIMIT && (block.durationFields.Some? <==> definition.durationFields.None?) {
      CountIsRule(definition, block);
    }
    forall n | 0 <= n < |block.subblocks| ensures block.subblocks[n] in block.subblocks {
    }
  }

  // ------------------------------------------------------------- the theorems

  /** The gates of a recon-gain block are those of the element's own layers. */
  predicate FollowsLayers(data: ParameterData, t: ElementType) {
    && data.ReconGain?
    && (!t.ChannelBased? ==> data.layers == [])
    && (t.ChannelBased? ==>
          && |data.layers| == |t.layers|
          && forall l | 0 <= l < |t.layers| :: data.layers[l].Some? <==> t.layers[l].reconGainIsPresent)
  }

  /**
    Parsed Parameter Blocks carry what their owner says. If the first OBU to define the id is an Audio Element,
    whose first definition of it is recon gain, each subblock has one entry for each layer of that element,
    present exactly where the layer says so; if it is demixing, each subblock is a demixing mode; and there is
    one subblock. If the owner is a Mix Presentation, each is a mix gain.
  */
  lemma BlocksFollowTheirOwner(input: seq<u8>, s: seq<SequenceObu>, i: nat, id: u32, j: nat)
    requires ParseSequence(input) == Ok(s) && Owner(s, i, id, j)
    ensures s[i].Element? || s[i].Mix?
    ensures s[i].Element? ==>
              && |s[j].block.payload.subblocks| == 1
              && exists k: nat :: FirstParam(s[i].element.payload.params, k, id)
    ensures s[i].Mix? ==> forall n | 0 <= n < |s[j].block.payload.subblocks| ::
              s[j].block.payload.subblocks[n].data.MixGain?
    ensures s[i].Element? ==> forall k: nat, n | FirstParam(s[i].element.payload.params, k, id)
                                                && 0 <= n < |s[j].block.payload.subblocks| ::
              var data := s[j].block.payload.subblocks[n].data;
              if s[i].element.payload.params[k].DemixingParam? then data.Demixing?
              else FollowsLayers(data, s[i].element.payload.elementType)
  {
    hide ParseSequence, ValidateParameterBlock, FirstParam, ParamDefines, SubMixDefines, Get;
    Governed(input, s, i, id, j);
    AddedDefines(s[i], id);
    var block := s[j].block.payload;
    var Registered(definition, context) := Get(Added(s[i]), id).value;
    ValidKinds(definition, context, block);
    if s[i].Element? {
      var _ := FirstOf(s[i].element.payload.params, id);
    }
  }

  lemma {:induction false} FirstOf(params: seq<ElementParam>, id: u32) returns (k: nat)
    requires exists n | 0 <= n < |params| :: ParamDefines(params[n], id)
    ensures FirstParam(params, k, id)
  {
    hide ParamDefines;
    k := 0;
    if !ParamDefines(params[0], id) {
      var n :| 0 <= n < |params| && ParamDefines(params[n], id);
      assert params[1..][n - 1] == params[n];
      k := FirstOf(params[1..], id);
      assert forall m | 0 < m < k + 1 :: params[m] == params[1..][m - 1];
      k := k + 1;
    }
  }

  /** A Parameter Block is read as one exactly where an earlier OBU defines its parameter. */
  lemma OpaqueMeansUndefined(input: seq<u8>, s: seq<SequenceObu>, j: nat)
    requires ParseSequence(input) == Ok(s) && j < |s|
    ensures s[j].Block? ==> !NoneDefines(s[..j], s[j].block.payload.parameterId)
    ensures s[j].Ungoverned? ==>
              && RLeb(BytesBits(s[j].bytes), 0).Ok?
              && NoneDefines(s[..j], RLeb(BytesBits(s[j].bytes), 0).value.0)
  {
    hide ReadAll, After, Defines, Get, WellFormed, RLeb, BytesBits, AllWellFormed;
    NothingYet(0);
    if s[j].Block? {
      BlockObeys(input, s, j);
      NothingYet(s[j].block.payload.parameterId);
      AfterDefines([], s[..j], s[j].block.payload.parameterId);
    }
    if s[j].Ungoverned? {
      ReadIsWellFormed(BytesBits(input), 0, []);
      WellFormedAt([], s, j);
      NamelessAt(After([], s[..j]), s[j]);
      var id := RLeb(BytesBits(s[j].bytes), 0).value.0;
      NothingYet(id);
      AfterDefines([], s[..j], id);
    }
  }

  lemma NamelessAt(registry: Registry, o: SequenceObu)
    requires WellFormed(registry, o) && o.Ungoverned?
    ensures RLeb(BytesBits(o.bytes), 0).Ok? && Get(registry, RLeb(BytesBits(o.bytes), 0).value.0).None?
  {
    hide RLeb, BytesBits, Get, HeaderCanonical;
  }

  lemma {:induction false} WellFormedAt(registry: Registry, s: seq<SequenceObu>, j: nat)
    requires AllWellFormed(registry, s) && j < |s|
    ensures WellFormed(After(registry, s[..j]), s[j])
    decreases |s|
  {
    hide Observe, WellFormed;
    if j == 0 {
      assert s[..0] == [];
    } else {
      WellFormedAt(Observe(registry, s[0]), s[1..], j - 1);
      assert s[..j][0] == s[0] && s[..j][1..] == s[1..][..j - 1] && s[1..][j - 1] == s[j];
    }
  }
}
