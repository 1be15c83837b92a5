/**
  Channels into substreams: which cells of an interleaved buffer go into which Audio Frame payload, in what
  order, and how to put them back.
*/
module Packing {
  import opened Core
  import opened Obus
  import opened Layouts
  import opened AudioFrames

  datatype SubstreamChannels = Coupled(first: nat, second: nat) | Single(only: nat)
  {
    function Sources(): (s: seq<nat>)
      ensures |s| == 1 || |s| == 2
    {
      match this
      case Coupled(first, second) => [first, second]
      case Single(only) => [only]
    }
  }

  datatype SubstreamSpec = SubstreamSpec(obuType: ObuType, channels: SubstreamChannels)

  type SubstreamPlan = seq<SubstreamSpec>

  // ----------------------------------------------------------------------- plans

  /** The source channels of each substream, coupled pairs first; `None` for the layouts not yet supported. */
  function Groups(layout: LoudspeakerLayout): Option<seq<SubstreamChannels>> {
    match layout
    case Stereo => Some([Coupled(0, 1)])
    case Binaural => Some([Coupled(0, 1)])
    case Mono => Some([Single(0)])
    case Ch5_1 => Some([Coupled(0, 1), Coupled(4, 5), Single(2), Single(3)])
    case _ => None
  }

  function PlanOf(groups: seq<SubstreamChannels>): (plan: SubstreamPlan)
    requires |groups| < U32_LIMIT
    ensures |plan| == |groups|
  {
    seq(|groups|, i requires 0 <= i < |groups| => SubstreamSpec(ObuTypeFor(i), groups[i]))
  }

  method ForLayout(layout: LoudspeakerLayout) returns (r: Result<SubstreamPlan>)
    ensures Groups(layout).None? ==> r == Err(UnsupportedLayout)
    ensures Groups(layout).Some? ==> r == Ok(PlanOf(Groups(layout).value))
  {
    var groups := Groups(layout);
    if groups.None? {
      return Err(UnsupportedLayout);
    }
    var substreams: seq<SubstreamSpec> := [];
    for i := 0 to |groups.value|
      invariant substreams == PlanOf(groups.value)[..i]
    {
      substreams := substreams + [SubstreamSpec(ObuTypeFor(i), groups.value[i])];
    }
    assert PlanOf(groups.value)[..|groups.value|] == PlanOf(groups.value);
    return Ok(substreams);
  }

  function Width(plan: SubstreamPlan): nat {
    if plan == [] then 0 else Width(plan[..|plan| - 1]) + |plan[|plan| - 1].channels.Sources()|
  }

  function CoupledCount(plan: SubstreamPlan): nat {
    if plan == [] then 0 else CoupledCount(plan[..|plan| - 1]) + if plan[|plan| - 1].channels.Coupled? then 1 else 0
  }

  /** `channel_count`: a saturating `usize` sum. */
  function ChannelCount(plan: SubstreamPlan): u64 {
    if Width(plan) < U64_LIMIT then Width(plan) else U64_LIMIT - 1
  }

  /** Where a channel went: its substream and its place in that substream's interleaving. */
  ghost predicate Located(plan: SubstreamPlan, c: nat, s: nat, j: nat) {
    s < |plan| && j < |plan[s].channels.Sources()| && plan[s].channels.Sources()[j] == c
  }

  ghost predicate Placed(plan: SubstreamPlan, c: nat) {
    exists s: nat, j: nat :: Located(plan, c, s, j)
  }

  /** Every channel below the width sits at one place, and every place holds a channel below the width. */
  ghost predicate Bijective(plan: SubstreamPlan) {
    && (forall c: nat | c < Width(plan) :: Placed(plan, c))
    && (forall c: nat, s: nat, j: nat | Located(plan, c, s, j) :: c < Width(plan))
    && (forall c: nat, s: nat, j: nat, s': nat, j': nat | Located(plan, c, s, j) && Located(plan, c, s', j') ::
          s == s' && j == j')
  }

  /** The plan's own numbers are the ones the layout declares, and its frames carry ids 0, 1, ... in order. */
  lemma PlanMatchesLayout(layout: LoudspeakerLayout)
    requires Groups(layout).Some?
    ensures var plan := PlanOf(Groups(layout).value);
            && Bijective(plan)
            && layout.ChannelCount() == Some(ChannelCount(plan))
            && layout.SingleLayerCounts() == Some((|plan|, CoupledCount(plan)))
            && forall i: nat | i < |plan| :: SubstreamIdFor(plan[i].obuType) == Some(i)
  {
    var plan := PlanOf(Groups(layout).value);
    PlanCounts(layout);
    PlanLocates(layout);
    forall i: nat | i < |plan| ensures SubstreamIdFor(plan[i].obuType) == Some(i) {
      ImplicitIdRoundTrip(i, plan[i].obuType);
    }
  }

  lemma PlanCounts(layout: LoudspeakerLayout)
    requires Groups(layout).Some?
    ensures var plan := PlanOf(Groups(layout).value);
            && layout.ChannelCount() == Some(Width(plan))
            && layout.SingleLayerCounts() == Some((|plan|, CoupledCount(plan)))
            && Width(plan) == |plan| + CoupledCount(plan)
  {
    var plan := PlanOf(Groups(layout).value);
    CountsCoverChannels(layout);
    if |plan| == 1 {
      CountsSnoc(plan);
    } else {
      CountsSnoc(plan);
      CountsSnoc(plan[..3]);
      CountsSnoc(plan[..2]);
      CountsSnoc(plan[..1]);
      assert plan[..3][..2] == plan[..2] && plan[..2][..1] == plan[..1];
    }
  }

  lemma CountsSnoc(plan: SubstreamPlan)
    requires plan != []
    ensures Width(plan) == Width(plan[..|plan| - 1]) + |plan[|plan| - 1].channels.Sources()|
    ensures CoupledCount(plan) ==
            CoupledCount(plan[..|plan| - 1]) + if plan[|plan| - 1].channels.Coupled? then 1 else 0
    ensures |plan| == 1 ==> Width(plan[..|plan| - 1]) == 0 && CoupledCount(plan[..|plan| - 1]) == 0
  {
  }

  lemma PlanLocates(layout: LoudspeakerLayout)
    requires Groups(layout).Some?
    ensures Bijective(PlanOf(Groups(layout).value))
  {
    hide Width;
    var plan := PlanOf(Groups(layout).value);
    PlanCounts(layout);
    assert Located(plan, 0, 0, 0);
    if !layout.Mono? {
      assert Located(plan, 1, 0, 1);
    }
    if layout.Ch5_1? {
      assert Located(plan, 2, 2, 0) && Located(plan, 3, 3, 0) && Located(plan, 4, 1, 0) && Located(plan, 5, 1, 1);
    }
  }

  // ----------------------------------------------------------------------- cells

  /** Cell `i` of a buffer of `size`-byte cells. */
  function Cell(x: seq<u8>, size: nat, i: nat): (c: seq<u8>)
    ensures (i + 1) * size <= |x| ==> |c| == size
  {
    if i * size <= (i + 1) * size <= |x| then x[i * size..(i + 1) * size] else []
  }

  function Assemble(n: nat, f: nat -> seq<u8>): seq<u8> {
    if n == 0 then [] else Assemble(n - 1, f) + f(n - 1)
  }

  ghost predicate Even(n: nat, size: nat, f: nat -> seq<u8>) {
    forall i: nat | i < n :: |f(i)| == size
  }

  lemma {:induction false} AssembleLength(n: nat, size: nat, f: nat -> seq<u8>)
    requires Even(n, size, f)
    ensures |Assemble(n, f)| == n * size
  {
    if n > 0 {
      AssembleLength(n - 1, size, f);
      assert n * size == (n - 1) * size + size;
    }
  }

  lemma CellBounds(n: nat, size: nat, i: nat)
    requires i < n
    ensures 0 <= i * size <= (i + 1) * size <= n * size
  {
    assert (n - i - 1) * size >= 0;
    assert n * size == i * size + size + (n - i - 1) * size;
  }

  lemma {:induction false} CellOfAssemble(n: nat, size: nat, f: nat -> seq<u8>, i: nat)
    requires Even(n, size, f) && i < n
    ensures Cell(Assemble(n, f), size, i) == f(i)
  {
    AssembleLength(n - 1, size, f);
    AssembleLength(n, size, f);
    CellBounds(n, size, i);
    if i < n - 1 {
      CellOfAssemble(n - 1, size, f, i);
      CellBounds(n - 1, size, i);
    }
  }

  lemma {:induction false} AssembleEqual(n: nat, f: nat -> seq<u8>, g: nat -> seq<u8>)
    requires forall i: nat | i < n :: f(i) == g(i)
    ensures Assemble(n, f) == Assemble(n, g)
  {
    if n > 0 {
      AssembleEqual(n - 1, f, g);
    }
  }

  lemma {:induction false} AssembleCells(x: seq<u8>, size: nat, n: nat)
    requires n * size <= |x|
    ensures Assemble(n, i => Cell(x, size, i)) == x[..n * size]
  {
    if n > 0 {
      assert n * size == (n - 1) * size + size;
      AssembleCells(x, size, n - 1);
    }
  }

  /** A buffer is its cells. */
  lemma BufferIsCells(n: nat, size: nat, x: seq<u8>, f: nat -> seq<u8>)
    requires |x| == n * size
    requires forall i: nat | i < n :: Cell(x, size, i) == f(i)
    ensures Assemble(n, f) == x
  {
    AssembleCells(x, size, n);
    AssembleEqual(n, f, i => Cell(x, size, i));
    assert x[..n * size] == x;
  }

  // --------------------------------------------------------------------- packing

  /** The cell of the interleaved input that becomes cell `i` of a payload. */
  function SourceCell(channels: nat, sources: seq<nat>, i: nat): nat
    requires sources != []
  {
    i / |sources| * channels + sources[i % |sources|]
  }

  /** One payload: for each sample, each of the substream's channels in turn. */
  function PackOne(x: seq<u8>, channels: nat, size: nat, sources: seq<nat>, samples: nat): seq<u8>
    requires sources != []
  {
    Assemble(samples * |sources|, (i: nat) => Cell(x, size, SourceCell(channels, sources, i)))
  }

  function Pack(plan: SubstreamPlan, x: seq<u8>, channels: nat, size: nat, samples: nat): (packed: seq<seq<u8>>)
    ensures |packed| == |plan|
  {
    seq(|plan|, s requires 0 <= s < |plan| => PackOne(x, channels, size, plan[s].channels.Sources(), samples))
  }

  predicate SourcesFit(plan: SubstreamPlan, channels: nat) {
    forall s: nat, j: nat | s < |plan| && j < |plan[s].channels.Sources()| :: plan[s].channels.Sources()[j] < channels
  }

  predicate Packable(plan: SubstreamPlan, x: seq<u8>, channels: u64, size: u64) {
    && channels == ChannelCount(plan) && channels > 0 && size > 0 && channels * size < U64_LIMIT
    && |x| % (channels * size) == 0
    && (|x| > 0 ==> SourcesFit(plan, channels))
  }

  lemma FrameCells(channels: nat, size: nat, samples: nat, sample: nat, source: nat)
    requires sample < samples && source < channels
    ensures source * size + sample * (channels * size) == (sample * channels + source) * size
    ensures (sample * channels + source + 1) * size <= samples * (channels * size)
  {
    assert (sample * channels + source) * size == sample * channels * size + source * size;
    assert sample * channels * size == sample * (channels * size);
    CellBounds(samples, channels, sample);
    assert sample * channels + source + 1 <= samples * channels by {
      assert (sample + 1) * channels == sample * channels + channels;
    }
    CellBounds(samples * channels, size, sample * channels + source);
    assert samples * channels * size == samples * (channels * size);
  }

  lemma SplitIndex(width: nat, a: nat, j: nat)
    requires j < width
    ensures (a * width + j) / width == a && (a * width + j) % width == j
  {
    var i := a * width + j;
    SameQuotient(width, i / width, i % width, a, j);
  }

  lemma SameQuotient(width: nat, q: nat, r: nat, a: nat, j: nat)
    requires r < width && j < width && q * width + r == a * width + j
    ensures q == a && r == j
  {
    if q < a {
      Multiples(width, q + 1, a);
    } else if a < q {
      Multiples(width, a + 1, q);
    }
  }

  lemma Multiples(width: nat, a: nat, b: nat)
    requires a <= b
    ensures a * width <= b * width && (a + 1) * width == a * width + width
    ensures a > 0 ==> (a - 1) * width == a * width - width
  {
    assert b * width == a * width + (b - a) * width;
  }

  /** `pack_channels_to_substreams`: opaque bytes copied cell by cell, sample by sample within each substream. */
  method PackChannels(plan: SubstreamPlan, interleaved: seq<u8>, channels: u64, size: u64)
    returns (r: Result<seq<seq<u8>>>)
    ensures !Packable(plan, interleaved, channels, size) ==> r == Err(ChannelCountMismatch)
    ensures Packable(plan, interleaved, channels, size) ==>
              r == Ok(Pack(plan, interleaved, channels, size, |interleaved| / (channels * size)))
  {
    hide Pack, SourcesFit;
    if channels != ChannelCount(plan) || channels == 0 || size == 0 {
      return Err(ChannelCountMismatch);
    }
    var frameBytes: nat := channels * size;
    if frameBytes >= U64_LIMIT || |interleaved| % frameBytes != 0 {
      return Err(ChannelCountMismatch);
    }
    var samples: nat := |interleaved| / frameBytes;
    assert samples * frameBytes == |interleaved|;
    var packed: seq<seq<u8>> := [];
    for s := 0 to |plan|
      invariant |packed| == s && PackedUpTo(plan, interleaved, channels, size, samples, packed)
      invariant samples > 0 ==> FitUpTo(plan, channels, s)
    {
      var sources := plan[s].channels.Sources();
      var payload := PackSubstream(interleaved, channels, size, sources, samples);
      if payload.Err? {
        Misfit(plan, channels, s);
        return Err(ChannelCountMismatch);
      }
      packed := packed + [payload.value];
    }
    PackedAll(plan, interleaved, channels, size, samples, packed);
    FitAll(plan, channels);
    r := Ok(packed);
  }

  predicate SourcesBelow(sources: seq<nat>, channels: nat) {
    forall j: nat | j < |sources| :: sources[j] < channels
  }

  predicate FitUpTo(plan: SubstreamPlan, channels: nat, n: nat)
    requires n <= |plan|
  {
    forall s: nat | s < n :: SourcesBelow(plan[s].channels.Sources(), channels)
  }

  predicate PackedUpTo(plan: SubstreamPlan, x: seq<u8>, channels: nat, size: nat, samples: nat, packed: seq<seq<u8>>)
    requires |packed| <= |plan|
  {
    forall s: nat | s < |packed| :: packed[s] == PackOne(x, channels, size, plan[s].channels.Sources(), samples)
  }

  lemma Misfit(plan: SubstreamPlan, channels: nat, s: nat)
    requires s < |plan| && !SourcesBelow(plan[s].channels.Sources(), channels)
    ensures !SourcesFit(plan, channels)
  {
  }

  lemma FitAll(plan: SubstreamPlan, channels: nat)
    ensures FitUpTo(plan, channels, |plan|) <==> SourcesFit(plan, channels)
  {
    if SourcesFit(plan, channels) {
      forall s: nat | s < |plan| ensures SourcesBelow(plan[s].channels.Sources(), channels) {
      }
    }
  }

  lemma PackedAll(plan: SubstreamPlan, x: seq<u8>, channels: nat, size: nat, samples: nat, packed: seq<seq<u8>>)
    requires |packed| == |plan| && PackedUpTo(plan, x, channels, size, samples, packed)
    ensures packed == Pack(plan, x, channels, size, samples)
  {
    hide PackOne;
  }

  /** The number of a payload's cell: sample by sample, `width` to each. */
  function CellNumber(width: nat, sample: nat, j: nat): nat {
    sample * width + j
  }

  lemma CellNumbers(width: nat, sample: nat, j: nat)
    ensures CellNumber(width, 0, 0) == 0 && CellNumber(width, sample, j + 1) == CellNumber(width, sample, j) + 1
    ensures CellNumber(width, sample, width) == CellNumber(width, sample + 1, 0)
    ensures CellNumber(width, sample, 0) == sample * width
  {
    assert (sample + 1) * width == sample * width + width;
  }

  method PackSubstream(interleaved: seq<u8>, channels: nat, size: nat, sources: seq<nat>, samples: nat)
    returns (r: Result<seq<u8>>)
    requires |interleaved| == samples * (channels * size) && size > 0 && sources != []
    ensures r.Err? ==> samples > 0 && !SourcesBelow(sources, channels) && r.error == ChannelCountMismatch
    ensures r.Ok? ==> r.value == PackOne(interleaved, channels, size, sources, samples)
    ensures r.Ok? && samples > 0 ==> SourcesBelow(sources, channels)
  {
    hide Cell, SourceCell, SourcesBelow, Assemble, CellNumber;
    ghost var f := (i: nat) => Cell(interleaved, size, SourceCell(channels, sources, i));
    var payload: seq<u8> := [];
    Assembling(0, f);
    CellNumbers(|sources|, 0, 0);
    for sample := 0 to samples
      invariant payload == Assemble(CellNumber(|sources|, sample, 0), f)
      invariant sample > 0 ==> SourcesBelow(sources, channels)
    {
      var frameStart := sample * (channels * size);
      BelowSnoc(sources, 0, channels);
      assert sources[..0] == [];
      for j := 0 to |sources|
        invariant payload == Assemble(CellNumber(|sources|, sample, j), f)
        invariant SourcesBelow(sources[..j], channels)
      {
        BelowSnoc(sources, j, channels);
        if sources[j] >= channels {
          return Err(ChannelCountMismatch);
        }
        var start := sources[j] * size + frameStart;
        NextCell(interleaved, channels, size, sources, samples, sample, j);
        payload := payload + interleaved[start..start + size];
        Assembling(CellNumber(|sources|, sample, j), f);
        CellNumbers(|sources|, sample, j);
      }
      CellNumbers(|sources|, sample, 0);
      assert sources[..|sources|] == sources;
    }
    CellNumbers(|sources|, samples, 0);
    r := Ok(payload);
  }

  lemma Assembling(n: nat, f: nat -> seq<u8>)
    ensures Assemble(0, f) == [] && Assemble(n + 1, f) == Assemble(n, f) + f(n)
  {
  }

  lemma BelowSnoc(sources: seq<nat>, j: nat, channels: nat)
    requires j < |sources|
    ensures SourcesBelow([], channels)
    ensures SourcesBelow(sources[..j], channels) && sources[j] < channels ==> SourcesBelow(sources[..j + 1], channels)
    ensures sources[j] >= channels ==> !SourcesBelow(sources, channels)
  {
  }

  lemma CellAt(x: seq<u8>, size: nat, i: nat)
    requires (i + 1) * size <= |x|
    ensures i * size + size <= |x| && Cell(x, size, i) == x[i * size..i * size + size]
  {
    assert (i + 1) * size == i * size + size;
  }

  lemma NextCell(
      x: seq<u8>, channels: nat, size: nat, sources: seq<nat>, samples: nat, sample: nat, j: nat)
    requires |x| == samples * (channels * size) && sample < samples && j < |sources| && sources[j] < channels
    ensures var start := sources[j] * size + sample * (channels * size);
            && start + size <= |x|
            && x[start..start + size] == Cell(x, size, SourceCell(channels, sources, CellNumber(|sources|, sample, j)))
  {
    hide Cell;
    FrameCells(channels, size, samples, sample, sources[j]);
    SplitIndex(|sources|, sample, j);
    CellAt(x, size, sample * channels + sources[j]);
  }

  // --------------------------------------------------------- packing is invertible

  function FindSource(sources: seq<nat>, c: nat, j: nat): Option<nat>
    requires j <= |sources|
    decreases |sources| - j
  {
    if j == |sources| then None else if sources[j] == c then Some(j) else FindSource(sources, c, j + 1)
  }

  /** Where channel `c` went, searched substream by substream. */
  function Locate(plan: SubstreamPlan, c: nat, s: nat): Option<(nat, nat)>
    requires s <= |plan|
    decreases |plan| - s
  {
    if s == |plan| then None
    else
      var j := FindSource(plan[s].channels.Sources(), c, 0);
      if j.Some? then Some((s, j.value)) else Locate(plan, c, s + 1)
  }

  /** The cell of the packed payloads that becomes cell `i` of the interleaved buffer. */
  function UnpackCell(plan: SubstreamPlan, packed: seq<seq<u8>>, channels: nat, size: nat, i: nat): seq<u8>
    requires |packed| == |plan| && channels > 0
  {
    var at := Locate(plan, i % channels, 0);
    if at.None? || at.value.0 >= |plan| then []
    else
      var (s, j) := at.value;
      Cell(packed[s], size, i / channels * |plan[s].channels.Sources()| + j)
  }

  function Unpack(plan: SubstreamPlan, packed: seq<seq<u8>>, channels: nat, size: nat, samples: nat): seq<u8>
    requires |packed| == |plan| && channels > 0
  {
    Assemble(samples * channels, (i: nat) => UnpackCell(plan, packed, channels, size, i))
  }

  lemma {:induction false} FindSourceFinds(sources: seq<nat>, c: nat, j: nat)
    requires j <= |sources|
    ensures var r := FindSource(sources, c, j);
            r.Some? ==> j <= r.value < |sources| && sources[r.value] == c
    ensures FindSource(sources, c, j).None? ==> forall k | j <= k < |sources| :: sources[k] != c
    decreases |sources| - j
  {
    if j < |sources| {
      FindSourceFinds(sources, c, j + 1);
    }
  }

  lemma {:induction false} LocateFinds(plan: SubstreamPlan, c: nat, s: nat)
    requires s <= |plan|
    ensures Locate(plan, c, s).Some? ==> Located(plan, c, Locate(plan, c, s).value.0, Locate(plan, c, s).value.1)
    ensures Locate(plan, c, s).None? ==> forall t: nat, j: nat | s <= t :: !Located(plan, c, t, j)
    decreases |plan| - s
  {
    if s < |plan| {
      FindSourceFinds(plan[s].channels.Sources(), c, 0);
      LocateFinds(plan, c, s + 1);
    }
  }

  /** In a bijective plan the search finds the one place a channel is at. */
  lemma LocateIs(plan: SubstreamPlan, c: nat, s: nat, j: nat)
    requires Bijective(plan) && Located(plan, c, s, j)
    ensures Locate(plan, c, 0) == Some((s, j))
  {
    LocateFinds(plan, c, 0);
  }

  lemma PayloadCell(x: seq<u8>, channels: nat, size: nat, sources: seq<nat>, samples: nat, sample: nat, j: nat)
    requires |x| == samples * (channels * size) && sources != [] && SourcesBelow(sources, channels)
    requires sample < samples && j < |sources|
    ensures Cell(PackOne(x, channels, size, sources, samples), size, sample * |sources| + j) ==
            Cell(x, size, sample * channels + sources[j])
  {
    hide Cell, Assemble;
    var f := (i: nat) => Cell(x, size, SourceCell(channels, sources, i));
    PayloadEven(x, channels, size, sources, samples);
    CellBounds(samples, |sources|, sample);
    assert sample * |sources| + j < samples * |sources| by {
      assert (sample + 1) * |sources| == sample * |sources| + |sources|;
    }
    CellOfAssemble(samples * |sources|, size, f, sample * |sources| + j);
    SplitIndex(|sources|, sample, j);
  }

  lemma IndexBelow(width: nat, samples: nat, i: nat)
    requires width > 0 && i < samples * width
    ensures i / width < samples && i % width < width && i == i / width * width + i % width
  {
    if i / width >= samples {
      Multiples(width, samples, i / width);
    }
  }

  lemma SourceCellFits(channels: nat, size: nat, sources: seq<nat>, samples: nat, i: nat)
    requires sources != [] && SourcesBelow(sources, channels) && i < samples * |sources|
    ensures (SourceCell(channels, sources, i) + 1) * size <= samples * (channels * size)
  {
    IndexBelow(|sources|, samples, i);
    FrameCells(channels, size, samples, i / |sources|, sources[i % |sources|]);
  }

  lemma PayloadEven(x: seq<u8>, channels: nat, size: nat, sources: seq<nat>, samples: nat)
    requires |x| == samples * (channels * size) && sources != [] && SourcesBelow(sources, channels)
    ensures Even(samples * |sources|, size, (i: nat) => Cell(x, size, SourceCell(channels, sources, i)))
  {
    hide Cell, SourceCell;
    var f := (i: nat) => Cell(x, size, SourceCell(channels, sources, i));
    forall i: nat | i < samples * |sources| ensures |f(i)| == size {
      SourceCellFits(channels, size, sources, samples, i);
    }
  }

  lemma PayloadLength(x: seq<u8>, channels: nat, size: nat, sources: seq<nat>, samples: nat)
    requires |x| == samples * (channels * size) && sources != [] && SourcesBelow(sources, channels)
    ensures |PackOne(x, channels, size, sources, samples)| == samples * |sources| * size
  {
    hide Cell;
    PayloadEven(x, channels, size, sources, samples);
    AssembleLength(samples * |sources|, size, (i: nat) => Cell(x, size, SourceCell(channels, sources, i)));
  }

  lemma BijectiveFits(plan: SubstreamPlan, s: nat)
    requires Bijective(plan) && s < |plan|
    ensures SourcesBelow(plan[s].channels.Sources(), Width(plan))
  {
    hide Width;
    var sources := plan[s].channels.Sources();
    forall j: nat | j < |sources| ensures sources[j] < Width(plan) {
      assert Located(plan, sources[j], s, j);
    }
  }

  /** Unpacking what was packed gives the interleaved buffer back, byte for byte. */
  lemma UnpackInvertsPack(plan: SubstreamPlan, x: seq<u8>, size: nat, samples: nat)
    requires Bijective(plan) && Width(plan) > 0 && |x| == samples * (Width(plan) * size)
    ensures Unpack(plan, Pack(plan, x, Width(plan), size, samples), Width(plan), size, samples) == x
  {
    hide Width, Cell, Assemble, Bijective, PackOne;
    var channels := Width(plan);
    var packed := Pack(plan, x, channels, size, samples);
    forall i: nat | i < samples * channels ensures Cell(x, size, i) == UnpackCell(plan, packed, channels, size, i) {
      IndexBelow(channels, samples, i);
      UnpackedCell(plan, x, size, samples, i / channels, i % channels);
    }
    assert |x| == samples * channels * size;
    BufferIsCells(samples * channels, size, x, (i: nat) => UnpackCell(plan, packed, channels, size, i));
  }

  lemma UnpackedCell(plan: SubstreamPlan, x: seq<u8>, size: nat, samples: nat, sample: nat, c: nat)
    requires Bijective(plan) && c < Width(plan) && |x| == samples * (Width(plan) * size) && sample < samples
    ensures UnpackCell(plan, Pack(plan, x, Width(plan), size, samples), Width(plan), size, sample * Width(plan) + c) ==
            Cell(x, size, sample * Width(plan) + c)
  {
    hide Width, Cell, Bijective, PackOne;
    var channels := Width(plan);
    SplitIndex(channels, sample, c);
    var s, j := PlaceOf(plan, c);
    LocateIs(plan, c, s, j);
    BijectiveFits(plan, s);
    PayloadCell(x, channels, size, plan[s].channels.Sources(), samples, sample, j);
  }

  lemma PlaceOf(plan: SubstreamPlan, c: nat) returns (s: nat, j: nat)
    requires Bijective(plan) && c < Width(plan)
    ensures Located(plan, c, s, j)
  {
    hide Width;
    assert Placed(plan, c);
    s, j :| Located(plan, c, s, j);
  }

  /** Payloads of the right lengths: what the decoder of a complete temporal unit sees. */
  predicate Shaped(plan: SubstreamPlan, packed: seq<seq<u8>>, size: nat, samples: nat) {
    && |packed| == |plan|
    && forall s: nat | s < |plan| :: |packed[s]| == samples * |plan[s].channels.Sources()| * size
  }

  /** Every shaped set of payloads is the packing of some buffer, namely of its own unpacking. */
  lemma PackInvertsUnpack(plan: SubstreamPlan, packed: seq<seq<u8>>, size: nat, samples: nat)
    requires Bijective(plan) && Width(plan) > 0 && Shaped(plan, packed, size, samples)
    ensures var x := Unpack(plan, packed, Width(plan), size, samples);
            && |x| == samples * Width(plan) * size
            && Pack(plan, x, Width(plan), size, samples) == packed
  {
    hide Width, Cell, Assemble, Bijective, Unpack, PackOne;
    var channels := Width(plan);
    var x := Unpack(plan, packed, channels, size, samples);
    UnpackEven(plan, packed, size, samples);
    forall s: nat | s < |plan| ensures PackOne(x, channels, size, plan[s].channels.Sources(), samples) == packed[s] {
      RepackOne(plan, packed, size, samples, s);
    }
    assert Pack(plan, x, channels, size, samples) == packed;
  }

  lemma UnpackEven(plan: SubstreamPlan, packed: seq<seq<u8>>, size: nat, samples: nat)
    requires Bijective(plan) && Width(plan) > 0 && |packed| == |plan| && Shaped(plan, packed, size, samples)
    ensures Even(samples * Width(plan), size, (i: nat) => UnpackCell(plan, packed, Width(plan), size, i))
    ensures |Unpack(plan, packed, Width(plan), size, samples)| == samples * Width(plan) * size
  {
    hide Width, Cell, Bijective, Shaped;
    var channels := Width(plan);
    var f := (i: nat) => UnpackCell(plan, packed, channels, size, i);
    forall i: nat | i < samples * channels ensures |f(i)| == size {
      IndexBelow(channels, samples, i);
      var s, j := PlaceOf(plan, i % channels);
      LocateIs(plan, i % channels, s, j);
      ShapedCell(plan, packed, size, samples, s, i / channels, j);
    }
    AssembleLength(samples * channels, size, f);
  }

  lemma ShapedCell(plan: SubstreamPlan, packed: seq<seq<u8>>, size: nat, samples: nat, s: nat, sample: nat, j: nat)
    requires Shaped(plan, packed, size, samples) && s < |plan| && sample < samples
    requires j < |plan[s].channels.Sources()|
    ensures |Cell(packed[s], size, sample * |plan[s].channels.Sources()| + j)| == size
  {
    var width := |plan[s].channels.Sources()|;
    CellBounds(samples, width, sample);
    assert (sample + 1) * width == sample * width + width;
    CellBounds(samples * width, size, sample * width + j);
  }

  lemma RepackOne(plan: SubstreamPlan, packed: seq<seq<u8>>, size: nat, samples: nat, s: nat)
    requires Bijective(plan) && Width(plan) > 0 && s < |plan| == |packed| && Shaped(plan, packed, size, samples)
    ensures PackOne(Unpack(plan, packed, Width(plan), size, samples), Width(plan), size,
                    plan[s].channels.Sources(), samples) == packed[s]
  {
    hide Width, Cell, Assemble, Bijective, Unpack;
    var channels, sources := Width(plan), plan[s].channels.Sources();
    var x := Unpack(plan, packed, channels, size, samples);
    var f := (i: nat) => Cell(x, size, SourceCell(channels, sources, i));
    forall i: nat | i < samples * |sources| ensures Cell(packed[s], size, i) == f(i) {
      IndexBelow(|sources|, samples, i);
      RepackedCell(plan, packed, size, samples, s, i / |sources|, i % |sources|);
    }
    BufferIsCells(samples * |sources|, size, packed[s], f);
  }

  lemma RepackedCell(plan: SubstreamPlan, packed: seq<seq<u8>>, size: nat, samples: nat, s: nat, sample: nat, j: nat)
    requires Bijective(plan) && Width(plan) > 0 && s < |plan| == |packed| && Shaped(plan, packed, size, samples)
    requires sample < samples && j < |plan[s].channels.Sources()|
    ensures Cell(Unpack(plan, packed, Width(plan), size, samples), size,
                 sample * Width(plan) + plan[s].channels.Sources()[j]) ==
            Cell(packed[s], size, sample * |plan[s].channels.Sources()| + j)
  {
    hide Width, Cell, Bijective, Shaped;
    var channels := Width(plan);
    var c := plan[s].channels.Sources()[j];
    BijectiveFits(plan, s);
    UnpackEven(plan, packed, size, samples);
    CellBounds(samples, channels, sample);
    assert (sample + 1) * channels == sample * channels + channels;
    CellOfAssemble(samples * channels, size, (i: nat) => UnpackCell(plan, packed, channels, size, i),
                   sample * channels + c);
    SplitIndex(channels, sample, c);
    assert Located(plan, c, s, j);
    LocateIs(plan, c, s, j);
  }

  function TotalLength(packed: seq<seq<u8>>): nat {
    if packed == [] then 0 else TotalLength(packed[..|packed| - 1]) + |packed[|packed| - 1]|
  }

  lemma Distribute(samples: nat, a: nat, b: nat, size: nat)
    ensures samples * (a + b) * size == samples * a * size + samples * b * size
  {
    assert samples * (a + b) == samples * a + samples * b;
    assert (samples * a + samples * b) * size == samples * a * size + samples * b * size;
  }

  lemma {:induction false} ShapedLength(plan: SubstreamPlan, packed: seq<seq<u8>>, size: nat, samples: nat)
    requires Shaped(plan, packed, size, samples)
    ensures TotalLength(packed) == samples * Width(plan) * size
  {
    if plan != [] {
      var n := |plan| - 1;
      ShapedLength(plan[..n], packed[..n], size, samples);
      Distribute(samples, Width(plan[..n]), |plan[n].channels.Sources()|, size);
    }
  }

  /** No byte of audio is lost or invented. */
  lemma PackConserves(plan: SubstreamPlan, x: seq<u8>, size: nat, samples: nat)
    requires Bijective(plan) && |x| == samples * (Width(plan) * size)
    ensures Shaped(plan, Pack(plan, x, Width(plan), size, samples), size, samples)
    ensures TotalLength(Pack(plan, x, Width(plan), size, samples)) == |x|
  {
    hide Width, Bijective, PackOne;
    var packed := Pack(plan, x, Width(plan), size, samples);
    forall s: nat | s < |plan| ensures |packed[s]| == samples * |plan[s].channels.Sources()| * size {
      BijectiveFits(plan, s);
      PayloadLength(x, Width(plan), size, plan[s].channels.Sources(), samples);
    }
    ShapedLength(plan, packed, size, samples);
    assert samples * Width(plan) * size == samples * (Width(plan) * size);
  }

  // ------------------------------------------------------- the supported layouts

  /** A buffer of whole frames of `n` cells, as a caller that knows the layout submits it. */
  predicate Whole(n: nat, x: seq<u8>, channels: u64, size: u64) {
    channels == n > 0 && size > 0 && n * size < U64_LIMIT && |x| % (n * size) == 0
  }

  /** 5.1 in the order L, R, C, LFE, Ls, Rs: the front pair, the surround pair, the centre, the LFE. */
  predicate Surround(x: seq<u8>, size: nat, samples: nat, packed: seq<seq<u8>>) {
    && |packed| == 4 && |packed[0]| == |packed[1]| == 2 * samples * size
    && |packed[2]| == |packed[3]| == samples * size
    && forall t: nat | t < samples :: SurroundSample(x, size, packed, t)
  }

  predicate SurroundSample(x: seq<u8>, size: nat, packed: seq<seq<u8>>, t: nat)
    requires |packed| == 4
  {
    && Cell(packed[0], size, 2 * t) == Cell(x, size, 6 * t)
    && Cell(packed[0], size, 2 * t + 1) == Cell(x, size, 6 * t + 1)
    && Cell(packed[1], size, 2 * t) == Cell(x, size, 6 * t + 4)
    && Cell(packed[1], size, 2 * t + 1) == Cell(x, size, 6 * t + 5)
    && Cell(packed[2], size, t) == Cell(x, size, 6 * t + 2)
    && Cell(packed[3], size, t) == Cell(x, size, 6 * t + 3)
  }

  /** The channels in their own order: one payload, and it is the buffer. */
  lemma OnlyPayload(x: seq<u8>, size: nat, sources: seq<nat>, samples: nat)
    requires sources == [0] || sources == [0, 1]
    requires |x| == samples * (|sources| * size)
    ensures PackOne(x, |sources|, size, sources, samples) == x
  {
    hide Cell, Assemble;
    var n := samples * |sources|;
    var f := (i: nat) => Cell(x, size, SourceCell(|sources|, sources, i));
    assert n * size == samples * (|sources| * size);
    forall i: nat | i < n ensures Cell(x, size, i) == f(i) {
      OwnCell(|sources|, i);
      assert sources[i % |sources|] == i % |sources|;
    }
    BufferIsCells(n, size, x, f);
  }

  lemma OwnCell(width: nat, i: nat)
    requires width > 0
    ensures i / width * width + i % width == i
  {
  }

  lemma SurroundAt(x: seq<u8>, size: nat, samples: nat, packed: seq<seq<u8>>, t: nat)
    requires |x| == samples * (6 * size) && t < samples && |packed| == 4
    requires packed[0] == PackOne(x, 6, size, [0, 1], samples) && packed[1] == PackOne(x, 6, size, [4, 5], samples)
    requires packed[2] == PackOne(x, 6, size, [2], samples) && packed[3] == PackOne(x, 6, size, [3], samples)
    ensures SurroundSample(x, size, packed, t)
  {
    hide PackOne, Cell;
    PayloadCell(x, 6, size, [0, 1], samples, t, 0);
    PayloadCell(x, 6, size, [0, 1], samples, t, 1);
    PayloadCell(x, 6, size, [4, 5], samples, t, 0);
    PayloadCell(x, 6, size, [4, 5], samples, t, 1);
    PayloadCell(x, 6, size, [2], samples, t, 0);
    PayloadCell(x, 6, size, [3], samples, t, 0);
  }

  lemma SurroundPacks(x: seq<u8>, size: nat, samples: nat, packed: seq<seq<u8>>)
    requires |x| == samples * (6 * size) && |packed| == 4
    requires packed[0] == PackOne(x, 6, size, [0, 1], samples) && packed[1] == PackOne(x, 6, size, [4, 5], samples)
    requires packed[2] == PackOne(x, 6, size, [2], samples) && packed[3] == PackOne(x, 6, size, [3], samples)
    ensures Surround(x, size, samples, packed)
  {
    hide PackOne, SurroundSample;
    PayloadLength(x, 6, size, [0, 1], samples);
    PayloadLength(x, 6, size, [4, 5], samples);
    PayloadLength(x, 6, size, [2], samples);
    PayloadLength(x, 6, size, [3], samples);
    forall t: nat | t < samples ensures SurroundSample(x, size, packed, t) {
      SurroundAt(x, size, samples, packed, t);
    }
  }

  /** How many channels the plan of a layout asks for, and which sources its payloads take. */
  lemma PlanSources(layout: LoudspeakerLayout)
    requires Groups(layout).Some?
    ensures var plan := PlanOf(Groups(layout).value);
            var sources := seq(|plan|, s requires 0 <= s < |plan| => plan[s].channels.Sources());
            && (layout.Mono? ==> ChannelCount(plan) == 1 && sources == [[0]])
            && (layout.Stereo? || layout.Binaural? ==> ChannelCount(plan) == 2 && sources == [[0, 1]])
            && (layout.Ch5_1? ==> ChannelCount(plan) == 6 && sources == [[0, 1], [4, 5], [2], [3]])
            && SourcesFit(plan, ChannelCount(plan))
  {
    hide Width, CoupledCount;
    PlanCounts(layout);
  }

  /**
    A buffer packed by the plan of its layout, seen from the buffer alone: which layouts are supported, how many
    channels each asks for, and which cells of the buffer each payload holds, sample by sample.
  */
  method PackLayout(layout: LoudspeakerLayout, x: seq<u8>, channels: u64, size: u64) returns (r: Result<seq<seq<u8>>>)
    ensures layout.Mono? ==> r == if Whole(1, x, channels, size) then Ok([x]) else Err(ChannelCountMismatch)
    ensures layout.Stereo? || layout.Binaural? ==>
              r == if Whole(2, x, channels, size) then Ok([x]) else Err(ChannelCountMismatch)
    ensures layout.Ch5_1? ==>
              if Whole(6, x, channels, size) then r.Ok? && Surround(x, size, |x| / (6 * size), r.value)
              else r == Err(ChannelCountMismatch)
    ensures !layout.Mono? && !layout.Stereo? && !layout.Binaural? && !layout.Ch5_1? ==> r == Err(UnsupportedLayout)
  {
    hide PackOne, Surround, SourcesFit, Width;
    var plan :- ForLayout(layout);
    PlanSources(layout);
    r := PackChannels(plan, x, channels, size);
    if r.Ok? {
      var samples := |x| / (channels * size);
      assert |x| == samples * (channels * size);
      assert forall s | 0 <= s < |plan| ::
          r.value[s] == PackOne(x, channels, size, plan[s].channels.Sources(), samples);
      if layout.Ch5_1? {
        SurroundPacks(x, size, samples, r.value);
      } else {
        OnlyPayload(x, size, plan[0].channels.Sources(), samples);
        assert r.value == [x];
      }
    }
  }
}
