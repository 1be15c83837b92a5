/**
  The Parameter Block (section 3.8 of IAMF v1.1.0): its syntax depends on a definition that an
  earlier descriptor published, found through a registry.
*/
module ParameterBlocks {
  import opened Core
  import opened Bits
  import opened Leb128
  import opened Lists
  import opened ParamDefinitions

  type Gains = g: seq<u8> | |g| == 12 witness seq(12, _ => 0)

  datatype MixGainData =
    | StepGain(start: i16)
    | LinearGain(start: i16, end: i16)
    | BezierGain(start: i16, end: i16, control: i16, relativeTime: u8)

  datatype ReconGainElement = ReconGainElement(flag: u32, gains: Gains)

  datatype ParameterData =
    | MixGain(mix: MixGainData)
    | Demixing(dmixpMode: u8, reserved: u8)
    | ReconGain(layers: seq<Option<ReconGainElement>>)
    | Raw(bytes: seq<u8>)

  /** What a descriptor says about the parameter data of the blocks it governs. */
  datatype Context =
    | MixGainContext
    | DemixingContext
    | ReconGainContext(present: seq<bool>)
    | ReservedContext(definitionType: u32)

  datatype Subblock = Subblock(duration: Option<u32>, data: ParameterData)

  datatype BlockDurationFields = BlockDurationFields(duration: u32, constantSubblockDuration: u32)

  datatype ParameterBlock = ParameterBlock(
    parameterId: u32, durationFields: Option<BlockDurationFields>, subblocks: seq<Subblock>)

  datatype Registered = Registered(definition: ParamDefinition, context: Context)

  type Registry = seq<Registered>

  /** The first definition carrying `id`. */
  function Get(registry: Registry, id: u32): (r: Option<Registered>)
    ensures r.Some? ==> r.value in registry && r.value.definition.parameterId == id
    ensures r.None? ==> forall entry | entry in registry :: entry.definition.parameterId != id
  {
    if registry == [] then None
    else if registry[0].definition.parameterId == id then Some(registry[0])
    else Get(registry[1..], id)
  }

  /** A lookup gives the first definition with the id, whatever later ones say. */
  lemma {:induction false} GetIsFirst(registry: Registry, id: u32) returns (k: nat)
    requires Get(registry, id).Some?
    ensures k < |registry| && Get(registry, id) == Some(registry[k]) && registry[k].definition.parameterId == id
    ensures forall j | 0 <= j < k :: registry[j].definition.parameterId != id
  {
    if registry[0].definition.parameterId == id {
      k := 0;
    } else {
      k := GetIsFirst(registry[1..], id);
      k := k + 1;
    }
  }

  // -------------------------------------------------------- parameter data

  predicate Selected(flag: u32, k: nat) {
    flag / Pow2(k) % 2 == 1
  }

  function WGains(w: BitSeq, flag: u32, gains: Gains, k: nat): (r: BitSeq)
    requires k <= 12
    ensures w <= r
    decreases 12 - k
  {
    if k == 12 then w
    else if Selected(flag, k) then WGains(w + BitsOf(gains[k], 8), flag, gains, k + 1)
    else WGains(w, flag, gains, k + 1)
  }

  function RGains(d: BitSeq, p: nat, flag: u32, acc: seq<u8>): (r: Result<(Gains, nat)>)
    requires |acc| <= 12
    ensures r.Ok? ==> acc <= r.value.0 && p <= r.value.1
    decreases 12 - |acc|
  {
    if |acc| == 12 then Ok((acc, p))
    else if Selected(flag, |acc|) then
      var (gain, p) :- RU8(d, p, 8);
      RGains(d, p, flag, acc + [gain])
    else RGains(d, p, flag, acc + [0])
  }

  function WLayer(w: BitSeq, layer: ReconGainElement): (r: BitSeq)
    ensures w <= r
  {
    WGains(WLeb(w, layer.flag), layer.flag, layer.gains, 0)
  }

  function RLayer(d: BitSeq, p: nat): Result<(ReconGainElement, nat)> {
    hide RLeb;
    var (flag, p) :- RLeb(d, p);
    var (gains, p) :- RGains(d, p, flag, []);
    Ok((ReconGainElement(flag, gains), p))
  }

  /** Layers and their gates side by side, as far as the shorter of the two. */
  function WLayers(w: BitSeq, layers: seq<Option<ReconGainElement>>, present: seq<bool>, i: nat): Result<BitSeq>
    decreases |layers| - i
  {
    if i >= |layers| || i >= |present| then Ok(w)
    else if !present[i] then WLayers(w, layers, present, i + 1)
    else if layers[i].None? then Err(UnsupportedParameterData)
    else WLayers(WLayer(w, layers[i].value), layers, present, i + 1)
  }

  function RLayers(d: BitSeq, p: nat, present: seq<bool>, acc: seq<Option<ReconGainElement>>)
      : (r: Result<(seq<Option<ReconGainElement>>, nat)>)
    requires |acc| <= |present|
    ensures r.Ok? ==> acc <= r.value.0 && |r.value.0| == |present|
    decreases |present| - |acc|
  {
    if |acc| == |present| then Ok((acc, p))
    else if !present[|acc|] then RLayers(d, p, present, acc + [None])
    else
      var (layer, p) :- RLayer(d, p);
      RLayers(d, p, present, acc + [Some(layer)])
  }

  function WMixGain(w: BitSeq, data: MixGainData): Result<BitSeq> {
    hide WLeb;
    match data
    case StepGain(start) => Ok(WI16(WLeb(w, 0), start))
    case LinearGain(start, end) => Ok(WI16(WI16(WLeb(w, 1), start), end))
    case BezierGain(start, end, control, relativeTime) =>
      WU(WI16(WI16(WI16(WLeb(w, 2), start), end), control), relativeTime, 8)
  }

  function RMixGain(d: BitSeq, p: nat): Result<(MixGainData, nat)> {
    hide RLeb;
    var (animation, p) :- RLeb(d, p);
    if animation > 2 then Err(UnsupportedParameterData)
    else
      var (start, p) :- RI16(d, p);
      if animation == 0 then Ok((StepGain(start), p))
      else
        var (end, p) :- RI16(d, p);
        if animation == 1 then Ok((LinearGain(start, end), p))
        else
          var (control, p) :- RI16(d, p);
          var (relativeTime, p) :- RU8(d, p, 8);
          Ok((BezierGain(start, end, control, relativeTime), p))
  }

  function WDemixing(w: BitSeq, dmixpMode: u8, reserved: u8): Result<BitSeq> {
    var w :- WU(w, dmixpMode, 3);
    WU(w, reserved, 5)
  }

  function RDemixing(d: BitSeq, p: nat): Result<(ParameterData, nat)> {
    var (dmixpMode, p) :- RU8(d, p, 3);
    var (reserved, p) :- RU8(d, p, 5);
    Ok((Demixing(dmixpMode, reserved), p))
  }

  function WData(w: BitSeq, context: Context, data: ParameterData): Result<BitSeq> {
    match data
    case MixGain(mix) => WMixGain(w, mix)
    case Demixing(dmixpMode, reserved) => WDemixing(w, dmixpMode, reserved)
    case ReconGain(layers) =>
      if context.ReconGainContext? then WLayers(w, layers, context.present, 0) else Err(UnsupportedParameterData)
    case Raw(bytes) => WSized(w, bytes)
  }

  function RData(d: BitSeq, p: nat, context: Context): Result<(ParameterData, nat)> {
    match context
    case MixGainContext =>
      var (mix, p) :- RMixGain(d, p);
      Ok((MixGain(mix), p))
    case DemixingContext => RDemixing(d, p)
    case ReconGainContext(present) =>
      var (layers, p) :- RLayers(d, p, present, []);
      Ok((ReconGain(layers), p))
    case ReservedContext(t) =>
      if t <= 2 then Err(UnsupportedParameterData)
      else
        var (bytes, p) :- RSized(d, p);
        Ok((Raw(bytes), p))
  }

  // ------------------------------------------------------------- the block

  function WSubblock(w: BitSeq, context: Context, s: Subblock): Result<BitSeq> {
    WData(if s.duration.Some? then WLeb(w, s.duration.value) else w, context, s.data)
  }

  function RSubblock(d: BitSeq, p: nat, timed: bool, context: Context): Result<(Subblock, nat)> {
    hide RLeb;
    var (duration, p) :-
      if timed then
        var (duration, p) :- RLeb(d, p);
        Ok((Some(duration), p))
      else Ok((None, p));
    var (data, p) :- RData(d, p, context);
    Ok((Subblock(duration, data), p))
  }

  function SubblockWriter(context: Context): ItemWriter<Subblock> {
    (w, s) => WSubblock(w, context, s)
  }

  function SubblockReader(timed: bool, context: Context): ItemReader<Subblock> {
    (d, p) => RSubblock(d, p, timed, context)
  }

  lemma Quotient(duration: nat, constant: nat)
    requires constant > 0
    ensures duration / constant * constant + duration % constant == duration
    ensures duration % constant != 0 ==> duration / constant < duration
  {
    var whole := duration / constant;
    if constant >= 2 {
      assert whole * constant >= whole * 2;
    }
  }

  /** `ceil(duration / constant)`, with the division checked. */
  function ImpliedSubblocks(duration: u32, constant: u32): Result<u32> {
    if constant == 0 then Err(SubblockDurationMismatch)
    else
      Quotient(duration, constant);
      if duration % constant == 0 then Ok(duration / constant) else Ok(duration / constant + 1)
  }

  /** The subblock count a mode-0 definition fixes for its blocks. */
  function DefinitionCount(def: ParamDefinition): Result<u32> {
    if def.durationFields.None? then Err(ParameterModeMismatch)
    else
      var fields := def.durationFields.value;
      if fields.constantSubblockDuration != 0 then ImpliedSubblocks(fields.duration, fields.constantSubblockDuration)
      else if |fields.subblockDurations| >= U32_LIMIT then Err(ObuTooLarge)
      else Ok(|fields.subblockDurations|)
  }

  function CheckSingleSubblock(context: Context, count: u32): Result<()> {
    if (context.DemixingContext? || context.ReconGainContext?) && count != 1 then Err(SubblockCountNotOne) else Ok(())
  }

  function DurationSum(subblocks: seq<Subblock>): nat {
    if subblocks == [] then 0
    else
      var last := subblocks[|subblocks| - 1];
      DurationSum(subblocks[..|subblocks| - 1]) + (if last.duration.Some? then last.duration.value else 0)
  }

  predicate KindMatches(context: Context, data: ParameterData) {
    match context
    case MixGainContext => data.MixGain?
    case DemixingContext => data.Demixing?
    case ReservedContext(t) => t >= 3 && data.Raw?
    case ReconGainContext(present) =>
      && data.ReconGain? && |data.layers| == |present|
      && forall i | 0 <= i < |present| :: data.layers[i].Some? == present[i]
  }

  predicate Timed(block: ParameterBlock) {
    block.durationFields.Some? && block.durationFields.value.constantSubblockDuration == 0
  }

  function ExpectedCount(def: ParamDefinition, block: ParameterBlock): Result<u32> {
    if block.durationFields.Some? then
      var fields := block.durationFields.value;
      if fields.constantSubblockDuration != 0 then ImpliedSubblocks(fields.duration, fields.constantSubblockDuration)
      else if |block.subblocks| >= U32_LIMIT then Err(ObuTooLarge)
      else Ok(|block.subblocks|)
    else DefinitionCount(def)
  }

  function ValidateParameterBlock(def: ParamDefinition, context: Context, block: ParameterBlock): Result<()> {
    if block.parameterId != def.parameterId then Err(ParameterIdMismatch)
    else if block.durationFields.Some? != def.Mode() then Err(ParameterModeMismatch)
    else if exists s | s in block.subblocks :: !KindMatches(context, s.data) then Err(UnsupportedParameterData)
    else
      var expected :- ExpectedCount(def, block);
      if |block.subblocks| >= U32_LIMIT then Err(ObuTooLarge)
      else
        var _ :- CheckSingleSubblock(context, |block.subblocks|);
        if |block.subblocks| != expected then Err(SubblockDurationMismatch)
        else if exists s | s in block.subblocks :: s.duration.Some? != Timed(block) then Err(SubblockDurationMismatch)
        else if Timed(block) && DurationSum(block.subblocks) != block.durationFields.value.duration
        then Err(SubblockDurationMismatch)
        else Ok(())
  }

  function WBlockHead(w: BitSeq, block: ParameterBlock): (r: BitSeq)
    requires |block.subblocks| < U32_LIMIT
    ensures w <= r
  {
    hide WLeb;
    var w := WLeb(w, block.parameterId);
    if block.durationFields.None? then w
    else
      var w := WLeb(WLeb(w, block.durationFields.value.duration), block.durationFields.value.constantSubblockDuration);
      if Timed(block) then WLeb(w, |block.subblocks|) else w
  }

  /** `write_parameter_block`. */
  function WParameterBlock(w: BitSeq, def: ParamDefinition, context: Context, block: ParameterBlock)
      : Result<BitSeq>
  {
    var _ :- ValidateParameterBlock(def, context, block);
    WMany(WBlockHead(w, block), block.subblocks, 0, SubblockWriter(context))
  }

  /** The duration fields of the block, the subblock count, and the position after them. */
  function RBlockDurations(d: BitSeq, p: nat, def: ParamDefinition)
      : Result<(Option<BlockDurationFields>, u32, nat)>
  {
    hide RLeb;
    if def.Mode() then
      var (duration, p) :- RLeb(d, p);
      var (constant, p) :- RLeb(d, p);
      var (count, p) :-
        if constant == 0 then RLeb(d, p)
        else
          var count :- ImpliedSubblocks(duration, constant);
          Ok((count, p));
      Ok((Some(BlockDurationFields(duration, constant)), count, p))
    else
      var count :- DefinitionCount(def);
      Ok((None, count, p))
  }

  /** `read_parameter_block`. */
  function RParameterBlock(d: BitSeq, p: nat, registry: Registry): Result<(ParameterBlock, nat)> {
    hide RLeb;
    var (id, p) :- RLeb(d, p);
    var registered := Get(registry, id);
    if registered.None? then Err(NoGoverningParamDefinition)
    else
      var Registered(def, context) := registered.value;
      if id != def.parameterId then Err(ParameterIdMismatch)
      else
        var (fields, count, p) :- RBlockDurations(d, p, def);
        var timed := fields.Some? && fields.value.constantSubblockDuration == 0;
        var _ :- CheckSingleSubblock(context, count);
        if !context.ReconGainContext? && count > Remaining(d, p) then Err(UnexpectedEndOfInput)
        else
          var (subblocks, p) :- RMany(d, p, count, [], SubblockReader(timed, context));
          if timed && DurationSum(subblocks) != fields.value.duration then Err(SubblockDurationMismatch)
          else Ok((ParameterBlock(id, fields, subblocks), p))
  }

  // ------------------------------------------------------------ properties

  predicate LayersMinimal(d: BitSeq, p: nat, present: seq<bool>, i: nat)
    requires i <= |present|
    decreases |present| - i
  {
    if i == |present| then true
    else if !present[i] then LayersMinimal(d, p, present, i + 1)
    else LebMinimal(d, p) && LayersMinimal(d, End(RLayer(d, p)), present, i + 1)
  }

  predicate DataMinimal(d: BitSeq, p: nat, context: Context) {
    match context
    case MixGainContext => LebMinimal(d, p)
    case DemixingContext => true
    case ReconGainContext(present) => LayersMinimal(d, p, present, 0)
    case ReservedContext(_) => LebMinimal(d, p)
  }

  predicate SubblockMinimal(d: BitSeq, p: nat, timed: bool, context: Context) {
    if timed then LebMinimal(d, p) && DataMinimal(d, End(RLeb(d, p)), context) else DataMinimal(d, p, context)
  }

  function SubblockTest(timed: bool, context: Context): ItemTest {
    (d: BitSeq, p: nat) => SubblockMinimal(d, p, timed, context)
  }

  /** The duration fields a mode-1 block carries itself. */
  predicate BlockDurationsMinimal(d: BitSeq, p: nat, def: ParamDefinition) {
    hide RLeb;
    var q := End(RLeb(d, p));
    def.Mode() ==>
      && LebMinimal(d, p) && LebMinimal(d, q)
      && (RLeb(d, q).Ok? && RLeb(d, q).value.0 == 0 ==> LebMinimal(d, End(RLeb(d, q))))
  }

  predicate GovernedMinimal(d: BitSeq, p: nat, def: ParamDefinition, context: Context) {
    && BlockDurationsMinimal(d, p, def)
    && (RBlockDurations(d, p, def).Ok? ==>
          var (fields, count, q) := RBlockDurations(d, p, def).value;
          var timed := fields.Some? && fields.value.constantSubblockDuration == 0;
          ManyMinimal(d, q, count, SubblockReader(timed, context), SubblockTest(timed, context)))
  }

  predicate BlockMinimal(d: BitSeq, p: nat, registry: Registry) {
    hide RLeb, Get;
    && LebMinimal(d, p)
    && (RLeb(d, p).Ok? && Get(registry, RLeb(d, p).value.0).Some? ==>
          var Registered(def, context) := Get(registry, RLeb(d, p).value.0).value;
          GovernedMinimal(d, End(RLeb(d, p)), def, context))
  }

  /** The implied count is the least number of constant-length subblocks that covers the block. */
  lemma ImpliedSubblocksIsCeiling(duration: u32, constant: u32)
    requires constant > 0
    ensures ImpliedSubblocks(duration, constant).Ok?
    ensures var n := ImpliedSubblocks(duration, constant).value;
            duration <= n * constant && (n > 0 ==> (n - 1) * constant < duration)
  {
    Quotient(duration, constant);
    var whole := duration / constant;
    assert (whole - 1) * constant == whole * constant - constant;
    assert (whole + 1) * constant == whole * constant + constant;
  }

  /** `count` subblocks of length `constant` cover the duration, and one fewer would not. */
  predicate Fills(count: nat, constant: nat, duration: nat) {
    duration <= count * constant && (count > 0 ==> (count - 1) * constant < duration)
  }

  /**
    The subblocks of a valid block fill its duration, whoever carries it: lengths of their own add up to it
    exactly, a constant length covers it with none to spare, and listed lengths have a subblock each.
  */
  lemma SubblocksFill(def: ParamDefinition, context: Context, block: ParameterBlock)
    requires ValidateParameterBlock(def, context, block).Ok?
    ensures block.durationFields.Some? ==>
              var fields := block.durationFields.value;
              if fields.constantSubblockDuration == 0 then DurationSum(block.subblocks) == fields.duration
              else Fills(|block.subblocks|, fields.constantSubblockDuration, fields.duration)
    ensures block.durationFields.None? ==>
              && def.durationFields.Some?
              && var fields := def.durationFields.value;
                 if fields.constantSubblockDuration == 0 then |block.subblocks| == |fields.subblockDurations|
                 else Fills(|block.subblocks|, fields.constantSubblockDuration, fields.duration)
  {
    hide KindMatches, ImpliedSubblocks;
    if block.durationFields.Some? {
      var fields := block.durationFields.value;
      if fields.constantSubblockDuration > 0 {
        ImpliedSubblocksIsCeiling(fields.duration, fields.constantSubblockDuration);
      }
    } else if def.durationFields.value.constantSubblockDuration > 0 {
      ImpliedSubblocksIsCeiling(def.durationFields.value.duration, def.durationFields.value.constantSubblockDuration);
    }
  }

  /** Gains the flag does not select are zero; they are not on the wire. */
  predicate GainsClean(layer: ReconGainElement) {
    forall k | 0 <= k < 12 && !Selected(layer.flag, k) :: layer.gains[k] == 0
  }

  predicate DataClean(data: ParameterData) {
    data.ReconGain? ==> forall layer | layer in data.layers && layer.Some? :: GainsClean(layer.value)
  }

  predicate BlockClean(block: ParameterBlock) {
    forall s | s in block.subblocks :: DataClean(s.data)
  }

  // Write, then read.

  lemma {:induction false} GainsAligned(w: BitSeq, flag: u32, gains: Gains, k: nat)
    requires k <= 12 && |w| % 8 == 0
    ensures |WGains(w, flag, gains, k)| % 8 == 0
    decreases 12 - k
  {
    hide BitsOf, Selected;
    if k < 12 {
      GainsAligned(if Selected(flag, k) then w + BitsOf(gains[k], 8) else w, flag, gains, k + 1);
    }
  }

  lemma {:induction false} StepGains(w: BitSeq, flag: u32, gains: Gains, k: nat, d: BitSeq) returns (w1: BitSeq)
    requires k <= 12 && WGains(w, flag, gains, k) <= d
    requires forall j | 0 <= j < 12 && !Selected(flag, j) :: gains[j] == 0
    ensures w1 == WGains(w, flag, gains, k) && RGains(d, |w|, flag, gains[..k]) == Ok((gains, |w1|))
    decreases 12 - k
  {
    hide BitsOf, Selected, RU8;
    if k == 12 {
      w1 := w;
      assert gains[..k] == gains;
    } else {
      assert gains[..k] + [gains[k]] == gains[..k + 1];
      if Selected(flag, k) {
        var next := w + BitsOf(gains[k], 8);
        w1 := StepGains(next, flag, gains, k + 1, d);
        PrefixSlice(next, d, |w|, |w| + 8);
        assert next[|w|..|w| + 8] == BitsOf(gains[k], 8);
        ByteReads(d, |w|, gains[k]);
      } else {
        w1 := StepGains(w, flag, gains, k + 1, d);
      }
    }
  }

  lemma StepLayer(w: BitSeq, layer: ReconGainElement, d: BitSeq) returns (w1: BitSeq)
    requires |w| % 8 == 0 && WLayer(w, layer) <= d && GainsClean(layer)
    ensures w1 == WLayer(w, layer) && |w1| % 8 == 0 && RLayer(d, |w|) == Ok((layer, |w1|))
  {
    hide WLeb, RLeb, WGains, RGains, Selected;
    var head := WLeb(w, layer.flag);
    GainsAligned(head, layer.flag, layer.gains, 0);
    w1 := StepGains(head, layer.flag, layer.gains, 0, d);
    var _ := StepLeb(w, layer.flag, d);
    assert layer.gains[..0] == [];
  }

  lemma {:induction false} LayersGrow(w: BitSeq, layers: seq<Option<ReconGainElement>>, present: seq<bool>, i: nat)
    requires WLayers(w, layers, present, i).Ok?
    ensures w <= WLayers(w, layers, present, i).value
    decreases |layers| - i
  {
    hide WLayer;
    if i < |layers| && i < |present| {
      LayersGrow(if present[i] then WLayer(w, layers[i].value) else w, layers, present, i + 1);
    }
  }

  lemma {:induction false} StepLayers(
      w: BitSeq, layers: seq<Option<ReconGainElement>>, present: seq<bool>, i: nat, d: BitSeq) returns (w1: BitSeq)
    requires |layers| == |present| && i <= |layers| && |w| % 8 == 0
    requires forall k | 0 <= k < |present| :: layers[k].Some? == present[k]
    requires forall k | 0 <= k < |present| && layers[k].Some? :: GainsClean(layers[k].value)
    requires WLayers(w, layers, present, i).Ok? && WLayers(w, layers, present, i).value <= d
    ensures w1 == WLayers(w, layers, present, i).value && w <= w1 && |w1| % 8 == 0
    ensures RLayers(d, |w|, present, layers[..i]) == Ok((layers, |w1|))
    decreases |layers| - i
  {
    hide WLayer, RLayer, GainsClean;
    LayersGrow(w, layers, present, i);
    if i == |layers| {
      w1 := w;
      assert layers[..i] == layers;
    } else {
      assert layers[..i] + [layers[i]] == layers[..i + 1];
      if present[i] {
        LayersGrow(WLayer(w, layers[i].value), layers, present, i + 1);
        var next := StepLayer(w, layers[i].value, d);
        w1 := StepLayers(next, layers, present, i + 1, d);
      } else {
        w1 := StepLayers(w, layers, present, i + 1, d);
      }
    }
  }

  lemma MixGainSize(w: BitSeq, data: MixGainData)
    requires WMixGain(w, data).Ok?
    ensures w <= WMixGain(w, data).value && |w| + 8 <= |WMixGain(w, data).value|
    ensures |w| % 8 == 0 ==> |WMixGain(w, data).value| % 8 == 0
  {
    hide WLeb, WI16, WU;
    if |w| % 8 == 0 {
      LebAligned(w, 0);
      LebAligned(w, 1);
      LebAligned(w, 2);
    }
  }

  lemma StepMixGain(w: BitSeq, data: MixGainData, d: BitSeq) returns (w1: BitSeq)
    requires |w| % 8 == 0 && WMixGain(w, data).Ok? && WMixGain(w, data).value <= d
    ensures w1 == WMixGain(w, data).value && w <= w1 && |w1| % 8 == 0 && |w| + 8 <= |w1|
    ensures RMixGain(d, |w|) == Ok((data, |w1|))
  {
    MixGainSize(w, data);
    w1 := MixGainSteps(w, data, d);
  }

  lemma MixGainSteps(w: BitSeq, data: MixGainData, d: BitSeq) returns (w1: BitSeq)
    requires WMixGain(w, data).Ok? && WMixGain(w, data).value <= d
    ensures w1 == WMixGain(w, data).value && RMixGain(d, |w|) == Ok((data, |w1|))
  {
    hide WLeb, RLeb, WI16, RI16, WU, RU8;
    match data
    case StepGain(start) =>
      w1 := StepLeb(w, 0, d);
      w1 := StepI16(w1, start, d);
    case LinearGain(start, end) =>
      w1 := StepLeb(w, 1, d);
      w1 := StepI16(w1, start, d);
      w1 := StepI16(w1, end, d);
    case BezierGain(start, end, control, relativeTime) =>
      w1 := StepLeb(w, 2, d);
      w1 := StepI16(w1, start, d);
      w1 := StepI16(w1, end, d);
      w1 := StepI16(w1, control, d);
      w1 := StepU8(w1, relativeTime, 8, d);
  }

  lemma StepData(w: BitSeq, context: Context, data: ParameterData, d: BitSeq) returns (w1: BitSeq)
    requires |w| % 8 == 0 && KindMatches(context, data) && DataClean(data)
    requires WData(w, context, data).Ok? && WData(w, context, data).value <= d
    ensures w1 == WData(w, context, data).value && w <= w1 && |w1| % 8 == 0
    ensures !context.ReconGainContext? ==> |w| + 8 <= |w1|
    ensures RData(d, |w|, context) == Ok((data, |w1|))
  {
    hide WU, RU8, WMixGain, RMixGain, WLayers, RLayers, WSized, RSized;
    match data
    case MixGain(mix) => w1 := StepMixGain(w, mix, d);
    case Demixing(dmixpMode, reserved) =>
      w1 := StepU8(w, dmixpMode, 3, d);
      w1 := StepU8(w1, reserved, 5, d);
    case ReconGain(layers) =>
      w1 := StepLayers(w, layers, context.present, 0, d);
      assert layers[..0] == [];
    case Raw(bytes) =>
      w1 := StepSized(w, bytes, d);
  }

  lemma SubblockReadsBack(d: BitSeq, timed: bool, context: Context, s: Subblock)
    requires KindMatches(context, s.data) && DataClean(s.data) && s.duration.Some? == timed
    ensures ReadsBack(SubblockWriter(context), SubblockReader(timed, context), d, !context.ReconGainContext?, s)
  {
    hide WLeb, RLeb, WData, RData, KindMatches, DataClean;
    var wr, rd, solid := SubblockWriter(context), SubblockReader(timed, context), !context.ReconGainContext?;
    forall w: BitSeq
      ensures ReadsBackAt(wr, rd, d, solid, s, w)
    {
      if |w| % 8 == 0 && wr(w, s).Ok? {
        var head := if timed then WLeb(w, s.duration.value) else w;
        assert |head| % 8 == 0;
        var all := wr(w, s).value;
        assert WData(head, context, s.data).value == all;
        var w1 := StepData(head, context, s.data, all);
        if all <= d {
          var w2 := StepData(head, context, s.data, d);
          if timed {
            var _ := StepLeb(w, s.duration.value, d);
          }
        }
      }
    }
  }

  lemma StepBlockHead(w: BitSeq, block: ParameterBlock, def: ParamDefinition, count: u32, d: BitSeq)
      returns (w1: BitSeq)
    requires |w| % 8 == 0 && |block.subblocks| < U32_LIMIT && WBlockHead(w, block) <= d
    requires block.durationFields.Some? == def.Mode() && ExpectedCount(def, block) == Ok(count)
    requires count == |block.subblocks|
    ensures w1 == WBlockHead(w, block) && |w1| % 8 == 0
    ensures RLeb(d, |w|).Ok? && RLeb(d, |w|).value.0 == block.parameterId
    ensures RBlockDurations(d, RLeb(d, |w|).value.1, def) == Ok((block.durationFields, count, |w1|))
  {
    hide WLeb, RLeb, DefinitionCount, ImpliedSubblocks;
    w1 := WLeb(w, block.parameterId);
    assert |w1| % 8 == 0;
    if block.durationFields.Some? {
      var fields := block.durationFields.value;
      var a := WLeb(w1, fields.duration);
      assert |a| % 8 == 0;
      var b := WLeb(a, fields.constantSubblockDuration);
      assert |b| % 8 == 0;
      if Timed(block) {
        var c := WLeb(b, |block.subblocks|);
        assert |c| % 8 == 0;
        assert b <= c;
        var _ := StepLeb(b, |block.subblocks|, d);
      }
      var _ := StepLeb(w1, fields.duration, d);
      var _ := StepLeb(a, fields.constantSubblockDuration, d);
    }
    var _ := StepLeb(w, block.parameterId, d);
    w1 := WBlockHead(w, block);
  }

  /**
    Write then read: a block the writer accepts under its governing definition is read back equal and
    to its last bit, so no count is ever refused against the bytes left.
  */
  lemma StepParameterBlock(w: BitSeq, registry: Registry, block: ParameterBlock, d: BitSeq) returns (w1: BitSeq)
    requires |w| % 8 == 0 && BlockClean(block) && Get(registry, block.parameterId).Some?
    requires var governing := Get(registry, block.parameterId).value;
             && WParameterBlock(w, governing.definition, governing.context, block).Ok?
             && WParameterBlock(w, governing.definition, governing.context, block).value <= d
    ensures var governing := Get(registry, block.parameterId).value;
            w1 == WParameterBlock(w, governing.definition, governing.context, block).value
    ensures w <= w1 && |w1| % 8 == 0
    ensures RParameterBlock(d, |w|, registry) == Ok((block, |w1|))
  {
    hide WLeb, RLeb, WBlockHead, RBlockDurations, WMany, RMany, Get, KindMatches, DataClean, ReadsBack, ExpectedCount;
    var Registered(def, context) := Get(registry, block.parameterId).value;
    var timed := Timed(block);
    var wr, rd := SubblockWriter(context), SubblockReader(timed, context);
    var head := WBlockHead(w, block);
    assert |head| % 8 == 0 by { BlockHeadAligned(w, block); }
    forall k | 0 <= k < |block.subblocks|
      ensures ReadsBack(wr, rd, d, !context.ReconGainContext?, block.subblocks[k])
    {
      assert block.subblocks[k] in block.subblocks;
      SubblockReadsBack(d, timed, context, block.subblocks[k]);
    }
    w1 := StepMany(wr, rd, d, !context.ReconGainContext?, head, block.subblocks, 0);
    assert block.subblocks[..0] == [];
    var _ := StepBlockHead(w, block, def, |block.subblocks|, d);
  }

  lemma BlockHeadAligned(w: BitSeq, block: ParameterBlock)
    requires |w| % 8 == 0 && |block.subblocks| < U32_LIMIT
    ensures |WBlockHead(w, block)| % 8 == 0
  {
    hide WLeb;
    var a := WLeb(w, block.parameterId);
    assert |a| % 8 == 0;
    if block.durationFields.Some? {
      var b := WLeb(a, block.durationFields.value.duration);
      assert |b| % 8 == 0;
      var c := WLeb(b, block.durationFields.value.constantSubblockDuration);
      assert |c| % 8 == 0;
    }
  }

  // Read, then write.

  predicate ZeroFrom(flag: u32, gains: Gains, k: nat) {
    forall j | k <= j < 12 && !Selected(flag, j) :: gains[j] == 0
  }

  lemma NothingUnselected(flag: u32, gains: Gains)
    ensures ZeroFrom(flag, gains, 12)
  {
  }

  lemma ZeroEarlier(flag: u32, gains: Gains, k: nat)
    requires k < 12
    ensures ZeroFrom(flag, gains, k + 1) && (Selected(flag, k) || gains[k] == 0) ==> ZeroFrom(flag, gains, k)
  {
    hide Selected;
  }

  /** Unread gains are zero, so what was read is clean. */
  lemma {:induction false} GainsAgain(
      d: BitSeq, p0: nat, p: nat, flag: u32, acc: seq<u8>, w0: BitSeq, w: BitSeq) returns (w1: BitSeq)
    requires |acc| <= 12 && Canon(d, p0, p, w0, w) && RGains(d, p, flag, acc).Ok? && p % 8 == 0
    ensures var (gains, q) := RGains(d, p, flag, acc).value;
            && w1 == WGains(w, flag, gains, |acc|) && Canon(d, p0, q, w0, w1) && q % 8 == 0
            && ZeroFrom(flag, gains, |acc|)
    decreases 12 - |acc|
  {
    hide BitsOf, Selected, RU8, Canon, ZeroFrom;
    if |acc| < 12 {
      ZeroEarlier(flag, RGains(d, p, flag, acc).value.0, |acc|);
    }
    if |acc| == 12 {
      w1 := w;
      NothingUnselected(flag, acc);
    } else if Selected(flag, |acc|) {
      var gain := RU8(d, p, 8).value.0;
      ByteShape(d, p);
      var next := w + BitsOf(gain, 8);
      AppendCanon(d, p0, p, p + 8, w0, w, BitsOf(gain, 8));
      w1 := GainsAgain(d, p0, p + 8, flag, acc + [gain], w0, next);
    } else {
      w1 := GainsAgain(d, p0, p, flag, acc + [0], w0, w);
    }
  }

  /** Only the selected gains are on the wire, a byte each, in both directions. */
  lemma {:induction false} GainsLength(d: BitSeq, p: nat, flag: u32, acc: seq<u8>, w: BitSeq)
    requires |acc| <= 12 && RGains(d, p, flag, acc).Ok?
    ensures var (gains, q) := RGains(d, p, flag, acc).value; |WGains(w, flag, gains, |acc|)| - |w| == q - p
    decreases 12 - |acc|
  {
    hide BitsOf, Selected, RU8;
    if |acc| < 12 {
      if Selected(flag, |acc|) {
        var gain := RU8(d, p, 8).value.0;
        GainsLength(d, p + 8, flag, acc + [gain], w + BitsOf(gain, 8));
      } else {
        GainsLength(d, p, flag, acc + [0], w);
      }
    }
  }

  lemma LayerAgain(d: BitSeq, p0: nat, p: nat, w0: BitSeq, w: BitSeq) returns (w1: BitSeq)
    requires Canon(d, p0, p, w0, w) && RLayer(d, p).Ok? && p % 8 == 0
    ensures var (layer, q) := RLayer(d, p).value;
            && w1 == WLayer(w, layer) && Canon(d, p0, q, w0, w1) && q % 8 == 0 && GainsClean(layer)
            && Tight(q - p, |w1| - |w|, LebMinimal(d, p))
  {
    hide WLeb, RLeb, LebMinimal, WGains, RGains, Selected, Canon;
    w1 := AgainLeb(d, p0, p, w0, w);
    GainsLength(d, RLeb(d, p).value.1, RLeb(d, p).value.0, [], w1);
    w1 := GainsAgain(d, p0, RLeb(d, p).value.1, RLeb(d, p).value.0, [], w0, w1);
    assert ZeroFrom(RLeb(d, p).value.0, RLayer(d, p).value.0.gains, 0);
  }

  lemma {:induction false} LayersAgain(
      d: BitSeq, p0: nat, p: nat, present: seq<bool>, acc: seq<Option<ReconGainElement>>, w0: BitSeq, w: BitSeq)
      returns (w1: BitSeq)
    requires |acc| <= |present| && Canon(d, p0, p, w0, w) && RLayers(d, p, present, acc).Ok? && p % 8 == 0
    ensures var (layers, q) := RLayers(d, p, present, acc).value;
            && WLayers(w, layers, present, |acc|) == Ok(w1) && Canon(d, p0, q, w0, w1) && q % 8 == 0
            && (forall k | |acc| <= k < |present| :: layers[k].Some? == present[k])
            && (forall k | |acc| <= k < |present| && layers[k].Some? :: GainsClean(layers[k].value))
            && Tight(q - p, |w1| - |w|, LayersMinimal(d, p, present, |acc|))
    decreases |present| - |acc|
  {
    hide WLayer, RLayer, LebMinimal, GainsClean, Canon;
    if |acc| == |present| {
      w1 := w;
    } else if !present[|acc|] {
      w1 := LayersAgain(d, p0, p, present, acc + [None], w0, w);
    } else {
      var (layer, q) := RLayer(d, p).value;
      var next := LayerAgain(d, p0, p, w0, w);
      w1 := LayersAgain(d, p0, q, present, acc + [Some(layer)], w0, next);
    }
  }

  lemma MixGainAgain(d: BitSeq, p0: nat, p: nat, w0: BitSeq, w: BitSeq) returns (w1: BitSeq)
    requires Canon(d, p0, p, w0, w) && RMixGain(d, p).Ok? && p % 8 == 0
    ensures var (mix, q) := RMixGain(d, p).value;
            && WMixGain(w, mix) == Ok(w1) && Canon(d, p0, q, w0, w1) && q % 8 == 0
            && Tight(q - p, |w1| - |w|, LebMinimal(d, p))
  {
    hide WLeb, RLeb, LebMinimal, WI16, RI16, WU, RU8, Canon;
    w1 := AgainLeb(d, p0, p, w0, w);
    var (animation, q) := RLeb(d, p).value;
    w1 := AgainI16(d, p0, q, w0, w1);
    if animation >= 1 {
      w1 := AgainI16(d, p0, q + 16, w0, w1);
    }
    if animation == 2 {
      w1 := AgainI16(d, p0, q + 32, w0, w1);
      w1 := AgainU8(d, p0, q + 48, 8, w0, w1);
    }
  }

  /** Accepted parameter data is of the governing kind, clean, and written again canonically. */
  lemma DataAgain(d: BitSeq, p0: nat, p: nat, context: Context, w0: BitSeq, w: BitSeq) returns (w1: BitSeq)
    requires Canon(d, p0, p, w0, w) && RData(d, p, context).Ok? && p % 8 == 0
    ensures var (data, q) := RData(d, p, context).value;
            && KindMatches(context, data) && DataClean(data)
            && WData(w, context, data) == Ok(w1) && Canon(d, p0, q, w0, w1) && q % 8 == 0
            && Tight(q - p, |w1| - |w|, DataMinimal(d, p, context))
  {
    hide LebMinimal, LayersMinimal, WU, RU8, WMixGain, RMixGain, WLayers, RLayers, WSized, RSized, Canon;
    match context
    case MixGainContext => w1 := MixGainAgain(d, p0, p, w0, w);
    case DemixingContext =>
      w1 := AgainU8(d, p0, p, 3, w0, w);
      w1 := AgainU8(d, p0, p + 3, 5, w0, w1);
    case ReconGainContext(present) => w1 := LayersAgain(d, p0, p, present, [], w0, w);
    case ReservedContext(_) =>
      w1 := AgainSized(d, p0, p, w0, w);
  }

  predicate SubblockGood(timed: bool, context: Context, s: Subblock) {
    s.duration.Some? == timed && KindMatches(context, s.data) && DataClean(s.data)
  }

  lemma SubblockAgain(d: BitSeq, p: nat, timed: bool, context: Context, w: BitSeq)
    requires p % 8 == 0 && p <= |d| && RSubblock(d, p, timed, context).Ok?
    ensures RewritesAt(
              SubblockWriter(context), SubblockReader(timed, context), SubblockTest(timed, context), d, p, w)
    ensures SubblockGood(timed, context, RSubblock(d, p, timed, context).value.0)
    ensures RSubblock(d, p, timed, context).value.1 % 8 == 0 && RSubblock(d, p, timed, context).value.1 <= |d|
  {
    hide WLeb, RLeb, LebMinimal, WData, RData, DataMinimal, KindMatches, DataClean;
    var q, w1 := p, w;
    CanonStart(d, p, w);
    if timed {
      w1 := AgainLeb(d, p, p, w, w);
      q := RLeb(d, p).value.1;
    }
    w1 := DataAgain(d, p, q, context, w, w1);
  }

  lemma SubblocksRewrite(d: BitSeq, timed: bool, context: Context)
    ensures Rewrites(SubblockWriter(context), SubblockReader(timed, context), SubblockTest(timed, context), d)
  {
    hide RSubblock, SubblockMinimal;
    var wr, rd, test := SubblockWriter(context), SubblockReader(timed, context), SubblockTest(timed, context);
    forall p: nat, w: BitSeq
      ensures RewritesAt(wr, rd, test, d, p, w)
    {
      if p % 8 == 0 && p <= |d| && rd(d, p).Ok? {
        SubblockAgain(d, p, timed, context, w);
      }
    }
  }

  lemma SubblocksGood(d: BitSeq, p: nat, n: nat, timed: bool, context: Context)
    requires p % 8 == 0 && p <= |d| && RMany(d, p, n, [], SubblockReader(timed, context)).Ok?
    ensures forall s | s in RMany(d, p, n, [], SubblockReader(timed, context)).value.0 ::
              SubblockGood(timed, context, s)
  {
    hide RMany, RSubblock, SubblockGood;
    var rd := SubblockReader(timed, context);
    forall q: nat | q % 8 == 0 && q <= |d| && rd(d, q).Ok?
      ensures SubblockGood(timed, context, rd(d, q).value.0)
      ensures rd(d, q).value.1 % 8 == 0 && rd(d, q).value.1 <= |d|
    {
      SubblockAgain(d, q, timed, context, []);
    }
    ManySatisfy(d, p, n, [], rd, s => SubblockGood(timed, context, s));
  }

  lemma BlockHeadAgain(d: BitSeq, p0: nat, p: nat, block: ParameterBlock, def: ParamDefinition, count: u32, q: nat,
                       w0: BitSeq, w: BitSeq) returns (w1: BitSeq)
    requires Canon(d, p0, p, w0, w) && p % 8 == 0 && |block.subblocks| == count
    requires RLeb(d, p).Ok? && RLeb(d, p).value.0 == block.parameterId
    requires RBlockDurations(d, RLeb(d, p).value.1, def) == Ok((block.durationFields, count, q))
    ensures w1 == WBlockHead(w, block) && Canon(d, p0, q, w0, w1) && q % 8 == 0
    ensures block.durationFields.Some? == def.Mode() && ExpectedCount(def, block) == Ok(count)
    ensures Tight(q - p, |w1| - |w|, LebMinimal(d, p) && BlockDurationsMinimal(d, RLeb(d, p).value.1, def))
  {
    hide WLeb, RLeb, LebMinimal, DefinitionCount, ImpliedSubblocks, Canon;
    w1 := AgainLeb(d, p0, p, w0, w);
    var q0 := RLeb(d, p).value.1;
    assert q0 % 8 == 0;
    if def.Mode() {
      var q1 := RLeb(d, q0).value.1;
      assert q1 % 8 == 0;
      w1 := AgainLeb(d, p0, q0, w0, w1);
      w1 := AgainLeb(d, p0, q1, w0, w1);
      if Timed(block) {
        w1 := AgainLeb(d, p0, RLeb(d, q1).value.1, w0, w1);
      }
    }
  }

  /**
    Read then write: under any registry, a block the reader accepts is valid for the definition and
    context that governed it, is clean, and is written again canonically.
  */
  lemma AgainParameterBlock(d: BitSeq, p0: nat, p: nat, registry: Registry, w0: BitSeq, w: BitSeq)
      returns (w1: BitSeq)
    requires Canon(d, p0, p, w0, w) && p % 8 == 0 && RParameterBlock(d, p, registry).Ok?
    ensures var (block, q) := RParameterBlock(d, p, registry).value;
            && Get(registry, block.parameterId).Some?
            && var Registered(def, context) := Get(registry, block.parameterId).value;
            && ValidateParameterBlock(def, context, block).Ok? && BlockClean(block)
            && WParameterBlock(w, def, context, block) == Ok(w1) && Canon(d, p0, q, w0, w1) && q % 8 == 0
            && Tight(q - p, |w1| - |w|, BlockMinimal(d, p, registry))
  {
    hide LebMinimal, BlockDurationsMinimal, ManyMinimal;
    hide WLeb, RLeb, WBlockHead, RBlockDurations, WMany, RMany, Get, KindMatches, DataClean, Rewrites, ExpectedCount;
    var (block, end) := RParameterBlock(d, p, registry).value;
    var q0 := RLeb(d, p).value.1;
    var Registered(def, context) := Get(registry, block.parameterId).value;
    var (fields, count, q) := RBlockDurations(d, q0, def).value;
    var timed := Timed(block);
    var head := BlockHeadAgain(d, p0, p, block, def, count, q, w0, w);
    SubblocksRewrite(d, timed, context);
    var wr, rd, test := SubblockWriter(context), SubblockReader(timed, context), SubblockTest(timed, context);
    w1 := AgainMany(wr, rd, test, d, p0, q, count, [], w0, head);
    SubblocksGood(d, q, count, timed, context);
    assert forall s | s in block.subblocks :: SubblockGood(timed, context, s);
  }
}
