/** What the grouping pass guarantees on any sequence, and that it inverts flattening. */
module Regrouping {
  import opened Core
  import opened Obus
  import opened ParameterBlocks
  import opened AudioFrames
  import opened SequenceObus
  import opened Parts

  // ------------------------------------------------------------ on any sequence

  /** Before the first temporal OBU nothing is open and nothing is remembered. */
  lemma {:induction false} FirstStart(s: seq<SequenceObu>, base: nat, delimited: bool)
    ensures var r := Starts(s, base, delimited, NO_UNIT);
            && (r == [] ==> forall i | 0 <= i < |s| :: !IsTemporal(s[i]))
            && (r != [] ==> IsTemporal(s[r[0] - base]) && forall i | 0 <= i < r[0] - base :: !IsTemporal(s[i]))
    decreases |s|
  {
    hide Starts;
    if s == [] {
      NoMoreStarts(s, base, delimited, NO_UNIT, []);
    } else {
      StartsCons(s, base, delimited, NO_UNIT);
      if !IsTemporal(s[0]) {
        assert Advance(delimited, NO_UNIT, s[0]) == NO_UNIT;
        FirstStart(s[1..], base + 1, delimited);
        var r := Starts(s[1..], base + 1, delimited, NO_UNIT);
        assert r != [] ==> s[r[0] - base] == s[1..][r[0] - base - 1];
        assert forall i | 0 < i < |s| :: s[i] == s[1..][i - 1];
      }
    }
  }

  /**
    The ranges are consecutive and non-empty, the first starts at the first temporal OBU, and they cover
    every OBU from there to the end; there is none exactly when nothing is temporal.
  */
  lemma RangesCover(s: seq<SequenceObu>)
    ensures var r := UnitRanges(s);
            && (forall k | 0 <= k < |r| :: r[k].0 < r[k].1 <= |s|)
            && (forall k | 0 <= k < |r| - 1 :: r[k].1 == r[k + 1].0)
            && (r == [] <==> forall i | 0 <= i < |s| :: !IsTemporal(s[i]))
            && (r != [] ==>
                  && r[|r| - 1].1 == |s| && IsTemporal(s[r[0].0])
                  && forall i | 0 <= i < r[0].0 :: !IsTemporal(s[i]))
  {
    hide Starts, UsesDelimiters;
    FirstStart(s, 0, UsesDelimiters(s));
  }

  function FrameIds(u: seq<SequenceObu>): seq<u32> {
    if u == [] then []
    else
      var front := FrameIds(u[..|u| - 1]);
      if u[|u| - 1].Frame? then front + [u[|u| - 1].frame.payload.substreamId] else front
  }

  predicate BlocksFirst(u: seq<SequenceObu>) {
    forall i, j | 0 <= i < j < |u| && u[i].Frame? :: !u[j].Block? && !u[j].Ungoverned?
  }

  /** Distinct frame ids, and every block before every frame. */
  predicate GoodUnit(u: seq<SequenceObu>) {
    Distinct(FrameIds(u)) && BlocksFirst(u)
  }

  lemma {:induction false} NoFrames(u: seq<SequenceObu>)
    requires FrameIds(u) == []
    ensures forall i | 0 <= i < |u| :: !u[i].Frame?
  {
    if u != [] {
      NoFrames(u[..|u| - 1]);
    }
  }

  /** Where the unit open at `base` ends, counted from `base`. */
  function UpTo(starts: seq<nat>, base: nat, n: nat): nat {
    if starts == [] then n else if base <= starts[0] <= base + n then starts[0] - base else 0
  }

  predicate GoodFrom(s: seq<SequenceObu>, base: nat, starts: seq<nat>, k: nat)
    requires k < |starts|
  {
    var a := starts[k];
    var b := if k + 1 < |starts| then starts[k + 1] else base + |s|;
    base <= a <= b <= base + |s| && GoodUnit(s[a - base..b - base])
  }

  predicate GoodRanges(s: seq<SequenceObu>, base: nat, starts: seq<nat>) {
    forall k: nat | k < |starts| :: GoodFrom(s, base, starts, k)
  }

  /** The state the pass is in after the OBUs `u` of an open unit. */
  predicate Describes(g: Grouping, u: seq<SequenceObu>) {
    g.ids == FrameIds(u) && (g.sawFrame <==> g.ids != [])
  }

  lemma Extend(g: Grouping, u: seq<SequenceObu>, o: SequenceObu)
    requires Describes(g, u) && GoodUnit(u) && !o.Delimiter? && g.open
    ensures var next := if Boundary(false, g, o) then [o] else u + [o];
            Describes(Advance(false, g, o), next) && GoodUnit(next)
  {
    assert (u + [o])[..|u|] == u && [o][..0] == [];
    assert FrameIds([]) == [];
    if !g.sawFrame {
      NoFrames(u);
    }
  }

  lemma TailSlice(s: seq<SequenceObu>, a: nat, b: nat)
    requires 0 < a <= b <= |s|
    ensures s[a..b] == s[1..][a - 1..b - 1]
  {
    var t := s[1..];
    forall k | 0 <= k < b - a ensures s[a..b][k] == t[a - 1..b - 1][k] {
      assert t[a - 1 + k] == s[a + k];
    }
  }

  lemma Shift(s: seq<SequenceObu>, base: nat, rest: seq<nat>)
    requires s != [] && GoodRanges(s[1..], base + 1, rest)
    ensures GoodRanges(s, base, rest)
  {
    hide GoodUnit;
    forall k: nat | k < |rest|
      ensures GoodFrom(s, base, rest, k)
    {
      assert GoodFrom(s[1..], base + 1, rest, k);
      var a := rest[k];
      var b := if k + 1 < |rest| then rest[k + 1] else base + |s|;
      TailSlice(s, a - base, b - base);
    }
  }

  lemma ShiftCut(s: seq<SequenceObu>, base: nat, rest: seq<nat>)
    requires s != [] && GoodRanges(s[1..], base + 1, rest)
    requires var len := UpTo(rest, base + 1, |s| - 1); len <= |s| - 1 && GoodUnit([s[0]] + s[1..][..len])
    requires rest != [] ==> base < rest[0] < base + |s|
    ensures GoodRanges(s, base, [base] + rest)
  {
    Shift(s, base, rest);
    var len := UpTo(rest, base + 1, |s| - 1);
    assert [s[0]] + s[1..][..len] == s[0..len + 1];
    forall k: nat | k < |[base] + rest|
      ensures GoodFrom(s, base, [base] + rest, k)
    {
      if k > 0 {
        assert GoodFrom(s, base, rest, k - 1);
      }
    }
  }

  lemma UpToShift(rest: seq<nat>, base: nat, n: nat)
    requires n > 0 && (rest != [] ==> base < rest[0] < base + n)
    ensures UpTo(rest, base, n) == UpTo(rest, base + 1, n - 1) + 1 && UpTo(rest, base + 1, n - 1) <= n - 1
    ensures UpTo([base] + rest, base, n) == 0
  {
  }

  lemma OneMore(u: seq<SequenceObu>, s: seq<SequenceObu>, len: nat)
    requires s != [] && len <= |s| - 1
    ensures u + [s[0]] + s[1..][..len] == u + s[..len + 1] && u + s[..0] == u
  {
    assert s[..len + 1] == [s[0]] + s[1..][..len];
    assert u + [s[0]] + s[1..][..len] == u + ([s[0]] + s[1..][..len]);
  }

  /** Without delimiters, the open unit and every unit after it is good. */
  lemma {:induction false} OpenFrom(s: seq<SequenceObu>, base: nat, g: Grouping, u: seq<SequenceObu>)
    requires g.open && Describes(g, u) && GoodUnit(u)
    requires forall i | 0 <= i < |s| :: !s[i].Delimiter?
    ensures var r := Starts(s, base, false, g); GoodRanges(s, base, r) && GoodUnit(u + s[..UpTo(r, base, |s|)])
    decreases |s|
  {
    hide GoodUnit, Describes, GoodRanges, Starts, Advance, Boundary, Cuts, UpTo;
    if s == [] {
      NoMoreStarts(s, base, false, g, []);
      NoRanges(s, base);
      assert u + s[..0] == u && UpTo([], base, 0) == 0 by { UpToNothing(base); }
    } else {
      var o := s[0];
      StartsCons(s, base, false, g);
      StaysOpen(g, o);
      var rest := Starts(s[1..], base + 1, false, Advance(false, g, o));
      var len := UpTo(rest, base + 1, |s| - 1);
      var next := if Boundary(false, g, o) then [o] else u + [o];
      Extend(g, u, o);
      UpToShift(rest, base, |s|);
      OneMore(u, s, len);
      assert forall i | 0 <= i < |s[1..]| :: s[1..][i] == s[i + 1];
      OpenFrom(s[1..], base + 1, Advance(false, g, o), next);
      if Boundary(false, g, o) {
        ShiftCut(s, base, rest);
      } else {
        Shift(s, base, rest);
      }
    }
  }

  lemma UpToNothing(base: nat)
    ensures UpTo([], base, 0) == 0
  {
  }

  lemma StaysOpen(g: Grouping, o: SequenceObu)
    requires g.open
    ensures Advance(false, g, o).open && (Cuts(false, g, o) <==> Boundary(false, g, o))
  {
  }

  lemma NoRanges(s: seq<SequenceObu>, base: nat)
    ensures GoodRanges(s, base, [])
  {
  }

  lemma {:induction false} ClosedFrom(s: seq<SequenceObu>, base: nat)
    requires forall i | 0 <= i < |s| :: !s[i].Delimiter?
    ensures GoodRanges(s, base, Starts(s, base, false, NO_UNIT))
    decreases |s|
  {
    hide GoodUnit, GoodRanges, Starts;
    if s == [] {
      NoMoreStarts(s, base, false, NO_UNIT, []);
      NoRanges(s, base);
    } else {
      var o := s[0];
      StartsCons(s, base, false, NO_UNIT);
      var g1 := Advance(false, NO_UNIT, o);
      var rest := Starts(s[1..], base + 1, false, g1);
      if IsTemporal(o) {
        Alone(o, g1);
        OpenFrom(s[1..], base + 1, g1, [o]);
        ShiftCut(s, base, rest);
      } else {
        ClosedFrom(s[1..], base + 1);
        Shift(s, base, rest);
      }
    }
  }

  lemma Alone(o: SequenceObu, g: Grouping)
    requires IsTemporal(o) && !o.Delimiter? && g == Advance(false, NO_UNIT, o)
    ensures Describes(g, [o]) && GoodUnit([o])
  {
    assert [o][..0] == [] && FrameIds([]) == [];
  }

  /** Without delimiters, every unit has distinct frame ids and all its blocks before its frames. */
  lemma UndelimitedUnits(s: seq<SequenceObu>)
    requires !UsesDelimiters(s)
    ensures forall k | 0 <= k < |UnitRanges(s)| :: var (a, b) := UnitRanges(s)[k]; a < b <= |s| && GoodUnit(s[a..b])
  {
    hide Starts, GoodUnit;
    forall i | 0 <= i < |s|
      ensures !s[i].Delimiter?
    {
      assert s[i] in s;
    }
    ClosedFrom(s, 0);
    forall k | 0 <= k < |UnitRanges(s)|
      ensures var (a, b) := UnitRanges(s)[k]; a < b <= |s| && GoodUnit(s[a..b])
    {
      assert GoodFrom(s, 0, UnitStarts(s), k);
    }
  }

  // ------------------------------------------------------------ with delimiters

  /** With delimiters, units start at the delimiters, and at the first temporal OBU if it is not one. */
  lemma {:induction false} DelimitedFrom(s: seq<SequenceObu>, base: nat, g: Grouping)
    requires g.open
    ensures forall i | 0 <= i < |s| :: s[i].Delimiter? <==> base + i in Starts(s, base, true, g)
    decreases |s|
  {
    hide Starts;
    if s != [] {
      StartsCons(s, base, true, g);
      var rest := Starts(s[1..], base + 1, true, Advance(true, g, s[0]));
      DelimitedFrom(s[1..], base + 1, Advance(true, g, s[0]));
      forall i | 0 <= i < |s|
        ensures s[i].Delimiter? <==> base + i in Starts(s, base, true, g)
      {
        if i > 0 {
          assert s[i] == s[1..][i - 1];
        }
      }
    }
  }

  /** A delimiter, or the first temporal OBU of all. */
  predicate Opens(s: seq<SequenceObu>, i: nat)
    requires i < |s|
  {
    s[i].Delimiter? || (IsTemporal(s[i]) && forall j | 0 <= j < i :: !IsTemporal(s[j]))
  }

  lemma OpensTail(s: seq<SequenceObu>, i: nat)
    requires 0 < i < |s|
    ensures IsTemporal(s[0]) ==> (Opens(s, i) <==> s[1..][i - 1].Delimiter?)
    ensures !IsTemporal(s[0]) ==> (Opens(s, i) <==> Opens(s[1..], i - 1))
  {
    hide IsTemporal;
    assert forall j | 0 < j < |s| :: s[j] == s[1..][j - 1];
    if !IsTemporal(s[0]) && Opens(s[1..], i - 1) {
      forall j | 0 <= j < i && !s[i].Delimiter? ensures !IsTemporal(s[j]) {
        if j > 0 {
          assert !IsTemporal(s[1..][j - 1]);
        }
      }
    }
  }

  /** The first place is cut or not; any later one is as the rest says. */
  lemma StartsMember(s: seq<SequenceObu>, base: nat, delimited: bool, g: Grouping, i: nat)
    requires i < |s|
    ensures var rest := Starts(s[1..], base + 1, delimited, Advance(delimited, g, s[0]));
            base + i in Starts(s, base, delimited, g) <==> if i == 0 then Cuts(delimited, g, s[0]) else base + i in rest
  {
    hide Starts, Cuts, Advance;
    StartsCons(s, base, delimited, g);
  }

  lemma {:induction false} DelimitedClosed(s: seq<SequenceObu>, base: nat, i: nat)
    requires i < |s|
    ensures Opens(s, i) <==> base + i in Starts(s, base, true, NO_UNIT)
    decreases |s|
  {
    hide Starts, Opens, Cuts, Advance, IsTemporal;
    StartsMember(s, base, true, NO_UNIT, i);
    FirstOpens(s, base);
    var g := Advance(true, NO_UNIT, s[0]);
    if i > 0 {
      OpensTail(s, i);
      if IsTemporal(s[0]) {
        DelimitedFrom(s[1..], base + 1, g);
        assert s[1..][i - 1].Delimiter? <==> base + 1 + (i - 1) in Starts(s[1..], base + 1, true, g);
      } else {
        DelimitedClosed(s[1..], base + 1, i - 1);
      }
    }
  }

  lemma FirstOpens(s: seq<SequenceObu>, base: nat)
    requires s != []
    ensures Opens(s, 0) <==> IsTemporal(s[0])
    ensures Cuts(true, NO_UNIT, s[0]) <==> IsTemporal(s[0])
    ensures !IsTemporal(s[0]) ==> Advance(true, NO_UNIT, s[0]) == NO_UNIT
    ensures IsTemporal(s[0]) ==> Advance(true, NO_UNIT, s[0]).open
  {
  }

  /** With delimiters, units start exactly at the delimiters and at the first temporal OBU. */
  lemma DelimitedUnits(s: seq<SequenceObu>)
    requires UsesDelimiters(s)
    ensures forall i: nat | i < |s| :: i in UnitStarts(s) <==> Opens(s, i)
  {
    hide Starts, UsesDelimiters, Opens;
    forall i: nat | i < |s| ensures i in UnitStarts(s) <==> Opens(s, i) {
      DelimitedClosed(s, 0, i);
    }
  }

  // ------------------------------------------------------------ flattened units

  function After(delimited: bool, g: Grouping, part: seq<SequenceObu>): Grouping
    decreases |part|
  {
    if part == [] then g else After(delimited, Advance(delimited, g, part[0]), part[1..])
  }

  predicate Quiet(delimited: bool, g: Grouping, part: seq<SequenceObu>)
    decreases |part|
  {
    part == [] || (!Cuts(delimited, g, part[0]) && Quiet(delimited, Advance(delimited, g, part[0]), part[1..]))
  }

  /** With or without a head in front of both. */
  lemma HeadFirst(head: bool, base: nat, x: seq<nat>, y: seq<nat>)
    ensures (if head then [base] + (x + y) else x + y) == (if head then [base] + x else x) + y
  {
    assert [base] + (x + y) == [base] + x + y;
  }

  lemma TailOfJoin<T>(a: seq<T>, b: seq<T>)
    requires a != []
    ensures (a + b)[0] == a[0] && (a + b)[1..] == a[1..] + b && a + b != []
  {
  }

  lemma {:induction false} StartsJoin(
      a: seq<SequenceObu>, b: seq<SequenceObu>, base: nat, delimited: bool, g: Grouping)
    ensures Starts(a + b, base, delimited, g)
         == Starts(a, base, delimited, g) + Starts(b, base + |a|, delimited, After(delimited, g, a))
    decreases |a|
  {
    hide Starts, Cuts, Advance, After;
    if a == [] {
      assert a + b == b;
      NothingBefore(a, base, delimited, g);
      HeadFirst(false, base, [], Starts(b, base, delimited, g));
    } else {
      TailOfJoin(a, b);
      AfterCons(delimited, g, a);
      StartsCons(a + b, base, delimited, g);
      StartsCons(a, base, delimited, g);
      var next := Advance(delimited, g, a[0]);
      StartsJoin(a[1..], b, base + 1, delimited, next);
      HeadFirst(Cuts(delimited, g, a[0]), base, Starts(a[1..], base + 1, delimited, next),
                Starts(b, base + |a|, delimited, After(delimited, g, a)));
    }
  }

  lemma NothingBefore(a: seq<SequenceObu>, base: nat, delimited: bool, g: Grouping)
    requires a == []
    ensures Starts(a, base, delimited, g) == [] && After(delimited, g, a) == g
  {
  }

  lemma {:induction false} QuietIsNoStart(part: seq<SequenceObu>, base: nat, delimited: bool, g: Grouping)
    ensures Starts(part, base, delimited, g) == [] <==> Quiet(delimited, g, part)
    decreases |part|
  {
    hide Starts, Cuts, Advance;
    if part == [] {
      NoMoreStarts(part, base, delimited, g, []);
      assert [] + Starts(part, base, delimited, g) == Starts(part, base, delimited, g);
    } else {
      StartsCons(part, base, delimited, g);
      QuietIsNoStart(part[1..], base + 1, delimited, Advance(delimited, g, part[0]));
    }
  }

  lemma {:induction false} QuietSplit(delimited: bool, g: Grouping, a: seq<SequenceObu>, b: seq<SequenceObu>)
    ensures Quiet(delimited, g, a + b) <==> Quiet(delimited, g, a) && Quiet(delimited, After(delimited, g, a), b)
    ensures After(delimited, g, a + b) == After(delimited, After(delimited, g, a), b)
    decreases |a|
  {
    hide Cuts, Advance;
    if a == [] {
      assert a + b == b;
    } else {
      assert (a + b)[0] == a[0] && (a + b)[1..] == a[1..] + b;
      QuietSplit(delimited, Advance(delimited, g, a[0]), a[1..], b);
    }
  }

  lemma {:induction false} NotTemporal(delimited: bool, part: seq<SequenceObu>)
    requires forall i | 0 <= i < |part| :: !IsTemporal(part[i])
    ensures Quiet(delimited, NO_UNIT, part) && After(delimited, NO_UNIT, part) == NO_UNIT
    decreases |part|
  {
    if part != [] {
      NotTemporal(delimited, part[1..]);
    }
  }

  lemma {:induction false} BlocksQuiet(delimited: bool, g: Grouping, blocks: seq<Obu<ParameterBlock>>)
    requires g.open && !g.sawFrame
    ensures Quiet(delimited, g, Map(FlatBlock, blocks)) && After(delimited, g, Map(FlatBlock, blocks)) == g
    decreases |blocks|
  {
    if blocks != [] {
      BlocksQuiet(delimited, g, blocks[1..]);
      assert Map(FlatBlock, blocks)[1..] == Map(FlatBlock, blocks[1..]);
    }
  }

  lemma DistinctSplit(seen: seq<u32>, id: u32, rest: seq<u32>)
    requires Distinct(seen)
    ensures Distinct(seen + [id]) <==> id !in seen
    ensures id in seen ==> !Distinct(seen + ([id] + rest))
  {
    if id in seen {
      var k :| 0 <= k < |seen| && seen[k] == id;
      assert (seen + [id])[k] == (seen + [id])[|seen|];
      var all := seen + ([id] + rest);
      assert all[k] == all[|seen|];
    }
  }

  lemma IdsCons(frames: seq<Obu<AudioFrame>>)
    requires frames != []
    ensures SubstreamIds(frames) == [frames[0].payload.substreamId] + SubstreamIds(frames[1..])
  {
  }

  /** Frames follow one another in a unit exactly when no id repeats, and always when delimiters decide. */
  lemma {:induction false} FramesQuiet(delimited: bool, g: Grouping, frames: seq<Obu<AudioFrame>>)
    requires g.open && (delimited || Distinct(g.ids))
    ensures var part := Map(FlatFrame, frames);
            && (Quiet(delimited, g, part) <==> delimited || Distinct(g.ids + SubstreamIds(frames)))
            && (Quiet(delimited, g, part) ==>
                  After(delimited, g, part) == Grouping(true, g.ids + SubstreamIds(frames), g.sawFrame || frames != []))
    decreases |frames|
  {
    hide SubstreamIds, Distinct;
    var ids := SubstreamIds(frames);
    if frames == [] {
      assert g.ids + ids == g.ids;
    } else {
      var part, id := Map(FlatFrame, frames), frames[0].payload.substreamId;
      IdsCons(frames);
      assert part[0] == FlatFrame(frames[0]) && part[1..] == Map(FlatFrame, frames[1..]);
      assert g.ids + [id] + SubstreamIds(frames[1..]) == g.ids + ids;
      if !delimited {
        DistinctSplit(g.ids, id, SubstreamIds(frames[1..]));
      }
      if delimited || id !in g.ids {
        assert Advance(delimited, g, part[0]) == Grouping(true, g.ids + [id], true);
        FramesQuiet(delimited, Grouping(true, g.ids + [id], true), frames[1..]);
      }
    }
  }

  /** Where each unit begins when the units follow one another from `base`. */
  function Offsets(base: nat, units: seq<TemporalUnit>): seq<nat>
    decreases |units|
  {
    if units == [] then [] else [base] + Offsets(base + |FlatUnit(units[0])|, units[1..])
  }

  /** Without delimiters, `u` is told apart from the unit before it: a block after a frame, or a frame id again. */
  predicate Border(before: TemporalUnit, u: TemporalUnit) {
    if u.parameterBlocks != [] then before.audioFrames != []
    else u.audioFrames != [] && u.audioFrames[0].payload.substreamId in SubstreamIds(before.audioFrames)
  }

  predicate SomethingIn(u: TemporalUnit) {
    u.hasDelimiter || u.parameterBlocks != [] || u.audioFrames != []
  }

  /** The unit begins where the pass cuts, and is not cut again. */
  predicate Separable(delimited: bool, before: Option<TemporalUnit>, u: TemporalUnit) {
    && SomethingIn(u)
    && if delimited then before.Some? ==> u.hasDelimiter
       else Distinct(SubstreamIds(u.audioFrames)) && (before.Some? ==> Border(before.value, u))
  }

  predicate AnyDelimited(units: seq<TemporalUnit>) {
    exists u | u in units :: u.hasDelimiter
  }

  /**
    The units that flattening keeps apart. None is empty. If one has a delimiter, all after the first have;
    if none has, no unit repeats a frame id and each is told apart from the one before it.
  */
  predicate Regroupable(units: seq<TemporalUnit>) {
    forall k | 0 <= k < |units| :: Separable(AnyDelimited(units), Preceding(None, units, k), units[k])
  }

  /** The unit before number `k`; the first follows `before`. */
  function Preceding(before: Option<TemporalUnit>, units: seq<TemporalUnit>, k: nat): Option<TemporalUnit>
    requires k <= |units|
  {
    if k == 0 then before else Some(units[k - 1])
  }

  /** The pass is between units: nothing is open, or the whole of `before` has gone by. */
  predicate Between(delimited: bool, g: Grouping, before: Option<TemporalUnit>) {
    match before
    case None => g == NO_UNIT
    case Some(u) =>
      && g.open
      && (delimited || (g.ids == SubstreamIds(u.audioFrames) && (g.sawFrame <==> u.audioFrames != [])))
  }

  /** What one flattened unit should do to the pass: it cuts at its first OBU, and nowhere else. */
  predicate CutsOnce(delimited: bool, g: Grouping, s: seq<SequenceObu>) {
    s != [] && Cuts(delimited, g, s[0]) && Quiet(delimited, Advance(delimited, g, s[0]), s[1..])
  }

  lemma CutsOnceIsOneStart(s: seq<SequenceObu>, base: nat, delimited: bool, g: Grouping)
    ensures Starts(s, base, delimited, g) == [base] <==> CutsOnce(delimited, g, s)
  {
    hide Starts, Cuts, Advance, Quiet;
    if s == [] {
      assert |Starts(s, base, delimited, g)| == 0 by {
        NoMoreStarts(s, base, delimited, g, []);
        assert [] + Starts(s, base, delimited, g) == Starts(s, base, delimited, g);
      }
    } else {
      StartsCons(s, base, delimited, g);
      var rest := Starts(s[1..], base + 1, delimited, Advance(delimited, g, s[0]));
      QuietIsNoStart(s[1..], base + 1, delimited, Advance(delimited, g, s[0]));
      if rest != [] {
        assert rest[0] >= base + 1;
      }
      assert [base] + rest == [base] ==> |rest| == 0;
    }
  }

  lemma FrameFirst(delimited: bool, g: Grouping, before: Option<TemporalUnit>, frames: seq<Obu<AudioFrame>>)
    requires Between(delimited, g, before) && frames != []
    ensures var s := Map(FlatFrame, frames);
            && (CutsOnce(delimited, g, s) <==>
                  Separable(delimited, before, TemporalUnit(false, [], frames)))
            && (CutsOnce(delimited, g, s) ==>
                  Between(delimited, After(delimited, g, s), Some(TemporalUnit(false, [], frames))))
  {
    hide After, Quiet, Map, SubstreamIds, Distinct;
    var s, id := Map(FlatFrame, frames), frames[0].payload.substreamId;
    MapCons(FlatFrame, frames);
    IdsCons(frames);
    assert s[1..] == Map(FlatFrame, frames[1..]);
    AfterCons(delimited, g, s);
    if Cuts(delimited, g, s[0]) {
      assert Advance(delimited, g, s[0]) == Grouping(true, [id], true) by {
        assert [] + [id] == [id];
      }
      OneIsDistinct(id);
      FramesQuiet(delimited, Grouping(true, [id], true), frames[1..]);
    }
  }

  lemma OneIsDistinct(id: u32)
    ensures Distinct([id]) && Distinct<u32>([])
  {
  }

  lemma AfterCons(delimited: bool, g: Grouping, s: seq<SequenceObu>)
    requires s != []
    ensures After(delimited, g, s) == After(delimited, Advance(delimited, g, s[0]), s[1..])
  {
  }

  /** A delimiter or a block in front. */
  lemma OpeningCuts(delimited: bool, g: Grouping, before: Option<TemporalUnit>, u: TemporalUnit)
    requires Between(delimited, g, before) && (u.hasDelimiter ==> delimited)
    requires u.hasDelimiter || u.parameterBlocks != []
    ensures var o := if u.hasDelimiter then DELIMITER else FlatBlock(u.parameterBlocks[0]);
            && (Cuts(delimited, g, o) <==>
                  before.None? || (if delimited then u.hasDelimiter else Border(before.value, u)))
            && (Cuts(delimited, g, o) ==>
                  var h := Advance(delimited, g, o); h.open && !h.sawFrame && (delimited || h.ids == []))
  {
  }

  lemma OpenedUnit(delimited: bool, g: Grouping, before: Option<TemporalUnit>, u: TemporalUnit)
    requires Between(delimited, g, before) && (u.hasDelimiter ==> delimited)
    requires u.hasDelimiter || u.parameterBlocks != []
    ensures CutsOnce(delimited, g, FlatUnit(u)) <==> Separable(delimited, before, u)
    ensures CutsOnce(delimited, g, FlatUnit(u)) ==> Between(delimited, After(delimited, g, FlatUnit(u)), Some(u))
  {
    hide After, Quiet, FlatUnit, Map, Distinct, SubstreamIds, Cuts, Advance;
    var tail := if u.hasDelimiter then u.parameterBlocks else u.parameterBlocks[1..];
    UnitTail(u);
    OpeningCuts(delimited, g, before, u);
    var s := FlatUnit(u);
    AfterCons(delimited, g, s);
    if Cuts(delimited, g, s[0]) {
      var h := Advance(delimited, g, s[0]);
      BlocksQuiet(delimited, h, tail);
      assert !delimited ==> h.ids + SubstreamIds(u.audioFrames) == SubstreamIds(u.audioFrames);
      OneIsDistinct(0);
      FramesQuiet(delimited, h, u.audioFrames);
      QuietSplit(delimited, h, Map(FlatBlock, tail), Map(FlatFrame, u.audioFrames));
    }
  }

  lemma OneUnit(delimited: bool, g: Grouping, before: Option<TemporalUnit>, u: TemporalUnit)
    requires Between(delimited, g, before) && (u.hasDelimiter ==> delimited)
    ensures CutsOnce(delimited, g, FlatUnit(u)) <==> Separable(delimited, before, u)
    ensures CutsOnce(delimited, g, FlatUnit(u)) ==> Between(delimited, After(delimited, g, FlatUnit(u)), Some(u))
  {
    hide CutsOnce, After, Distinct, SubstreamIds;
    if u.hasDelimiter || u.parameterBlocks != [] {
      OpenedUnit(delimited, g, before, u);
    } else {
      var f := Map(FlatFrame, u.audioFrames);
      assert Map(FlatBlock, u.parameterBlocks) == [];
      assert FlatUnit(u) == [] + [] + f == f;
      assert u == TemporalUnit(false, [], u.audioFrames);
      if u.audioFrames == [] {
        NothingCuts(delimited, g);
      } else {
        FrameFirst(delimited, g, before, u.audioFrames);
      }
    }
  }

  lemma NothingCuts(delimited: bool, g: Grouping)
    ensures !CutsOnce(delimited, g, [])
  {
  }

  lemma {:induction false} MapCons<T, U>(f: T -> U, xs: seq<T>)
    requires xs != []
    ensures Map(f, xs) == [f(xs[0])] + Map(f, xs[1..])
  {
  }

  lemma {:induction false} UnitTail(u: TemporalUnit)
    requires u.hasDelimiter || u.parameterBlocks != []
    ensures FlatUnit(u) != []
    ensures FlatUnit(u)[0] == if u.hasDelimiter then DELIMITER else FlatBlock(u.parameterBlocks[0])
    ensures FlatUnit(u)[1..]
         == Map(FlatBlock, if u.hasDelimiter then u.parameterBlocks else u.parameterBlocks[1..])
            + Map(FlatFrame, u.audioFrames)
  {
    hide FlatBlock, FlatFrame, Map;
    var blocks, frames := Map(FlatBlock, u.parameterBlocks), Map(FlatFrame, u.audioFrames);
    if u.hasDelimiter {
      assert ([DELIMITER] + blocks + frames)[1..] == blocks + frames;
    } else {
      MapCons(FlatBlock, u.parameterBlocks);
      var tail := Map(FlatBlock, u.parameterBlocks[1..]);
      assert ([] + blocks + frames)[1..] == tail + frames;
    }
  }

  /** The units from the one after `before` on are each told apart. */
  predicate AllSeparable(delimited: bool, before: Option<TemporalUnit>, units: seq<TemporalUnit>)
    decreases |units|
  {
    units == [] || (Separable(delimited, before, units[0]) && AllSeparable(delimited, Some(units[0]), units[1..]))
  }

  lemma {:induction false} SeparableEach(delimited: bool, before: Option<TemporalUnit>, units: seq<TemporalUnit>)
    ensures AllSeparable(delimited, before, units) <==>
              forall k | 0 <= k < |units| :: Separable(delimited, Preceding(before, units, k), units[k])
    decreases |units|
  {
    hide Separable;
    if units != [] {
      var rest := units[1..];
      SeparableEach(delimited, Some(units[0]), rest);
      assert forall k | 0 <= k < |rest| ::
          Preceding(Some(units[0]), rest, k) == Preceding(before, units, k + 1) && rest[k] == units[k + 1];
      assert Preceding(before, units, 0) == before;
      if forall k | 0 <= k < |units| :: Separable(delimited, Preceding(before, units, k), units[k]) {
        assert Separable(delimited, Preceding(before, units, 0), units[0]);
      }
      if AllSeparable(delimited, before, units) {
        forall k | 0 <= k < |units|
          ensures Separable(delimited, Preceding(before, units, k), units[k])
        {
          if k > 0 {
            assert Separable(delimited, Preceding(Some(units[0]), rest, k - 1), rest[k - 1]);
          }
        }
      }
    }
  }

  /** A first start at `base` and none before `m`, against all the starts. */
  lemma FirstOfAll(first: seq<nat>, rest: seq<nat>, base: nat, offsets: seq<nat>, m: nat)
    requires base <= m && (forall k | 0 <= k < |first| :: base <= first[k] < m)
    requires forall j, k | 0 <= j < k < |first| :: first[j] < first[k]
    requires forall k | 0 <= k < |rest| :: rest[k] >= m
    requires forall j, k | 0 <= j < k < |rest| :: rest[j] < rest[k]
    requires if offsets == [] then rest == [] else offsets[0] == m
    ensures first + rest == [base] + offsets <==> first == [base] && rest == offsets
  {
    var all := first + rest;
    assert |first| > 1 ==> all[1] == first[1];
    assert first == [] ==> all == rest;
    assert |first| == 1 ==> all[1..] == rest;
    if all == [base] + offsets {
      assert all[0] == base && all[1..] == offsets;
      assert offsets != [] ==> all[1] == offsets[0];
    }
  }

  lemma {:induction false} UnitsFrom(
      units: seq<TemporalUnit>, base: nat, delimited: bool, before: Option<TemporalUnit>, g: Grouping)
    requires Between(delimited, g, before) && forall u | u in units :: u.hasDelimiter ==> delimited
    ensures Starts(FlatUnits(units), base, delimited, g) == Offsets(base, units) <==>
              AllSeparable(delimited, before, units)
    decreases |units|
  {
    hide Starts, FlatUnit, FlatUnits, Offsets, Quiet, After, Between, Separable, CutsOnce;
    UnitsCons(units, base, delimited, g);
    if units != [] {
      var u, rest := FlatUnit(units[0]), FlatUnits(units[1..]);
      var next, m := After(delimited, g, u), base + |u|;
      OneUnit(delimited, g, before, units[0]);
      StartsJoin(u, rest, base, delimited, g);
      CutsOnceIsOneStart(u, base, delimited, g);
      UnitsCons(units[1..], m, delimited, next);
      FirstOfAll(Starts(u, base, delimited, g), Starts(rest, m, delimited, next), base, Offsets(m, units[1..]), m);
      if CutsOnce(delimited, g, u) {
        UnitsFrom(units[1..], m, delimited, Some(units[0]), next);
      }
    }
  }

  lemma UnitsCons(units: seq<TemporalUnit>, base: nat, delimited: bool, g: Grouping)
    ensures units == [] ==> Offsets(base, units) == Starts(FlatUnits(units), base, delimited, g) == []
    ensures units != [] ==>
              && FlatUnits(units) == FlatUnit(units[0]) + FlatUnits(units[1..])
              && Offsets(base, units) == [base] + Offsets(base + |FlatUnit(units[0])|, units[1..])
  {
    hide FlatUnit;
  }

  lemma {:induction false} DelimiterInUnits(units: seq<TemporalUnit>)
    ensures UsesDelimiters(FlatUnits(units)) <==> AnyDelimited(units)
    decreases |units|
  {
    if units != [] {
      DelimiterInUnits(units[1..]);
      DelimiterInUnit(units[0]);
      assert units == [units[0]] + units[1..];
      UsesJoin(FlatUnit(units[0]), FlatUnits(units[1..]));
    }
  }

  lemma UsesJoin(a: seq<SequenceObu>, b: seq<SequenceObu>)
    ensures UsesDelimiters(a + b) <==> UsesDelimiters(a) || UsesDelimiters(b)
  {
    forall o | o in a + b
      ensures o in a || o in b
    {
    }
    assert forall o | o in a || o in b :: o in a + b;
  }

  lemma DelimiterInUnit(u: TemporalUnit)
    ensures UsesDelimiters(FlatUnit(u)) <==> u.hasDelimiter
  {
    if u.hasDelimiter {
      assert FlatUnit(u)[0] == DELIMITER;
      assert FlatUnit(u)[0] in FlatUnit(u);
    }
  }

  lemma PrologueNotTemporal(set_: DescriptorSet)
    ensures forall i | 0 <= i < |FlatDescriptors(set_)| :: !IsTemporal(FlatDescriptors(set_)[i])
    ensures !UsesDelimiters(FlatDescriptors(set_))
  {
  }

  /** The prologue starts nothing, so the pass begins with the units. */
  lemma PartsStart(set_: DescriptorSet, units: seq<TemporalUnit>)
    ensures UsesDelimiters(FromParts(set_, units)) == AnyDelimited(units)
    ensures UnitStarts(FromParts(set_, units)) ==
            Starts(FlatUnits(units), |FlatDescriptors(set_)|, AnyDelimited(units), NO_UNIT)
  {
    hide Starts, FlatDescriptors, FlatUnits, Quiet, After, UsesDelimiters, IsTemporal, AnyDelimited;
    var prologue, temporal, delimited := FlatDescriptors(set_), FlatUnits(units), AnyDelimited(units);
    PrologueNotTemporal(set_);
    UsesJoin(prologue, temporal);
    DelimiterInUnits(units);
    StartsJoin(prologue, temporal, 0, delimited, NO_UNIT);
    NotTemporal(delimited, prologue);
    QuietIsNoStart(prologue, 0, delimited, NO_UNIT);
    assert [] + Starts(temporal, |prologue|, delimited, NO_UNIT) == Starts(temporal, |prologue|, delimited, NO_UNIT);
  }

  /**
    Regrouping inverts flattening, exactly: on the parts of a stream the pass starts a unit where each unit
    starts, and nowhere else, if and only if the units are ones that flattening keeps apart; and then each
    range it finds is the unit.
  */
  lemma {:induction false} RegroupsParts(set_: DescriptorSet, units: seq<TemporalUnit>)
    ensures UnitStarts(FromParts(set_, units)) == Offsets(|FlatDescriptors(set_)|, units) <==> Regroupable(units)
    ensures Regroupable(units) ==>
              var s, r := FromParts(set_, units), UnitRanges(FromParts(set_, units));
              && |r| == |units|
              && forall k | 0 <= k < |r| :: r[k].0 < r[k].1 <= |s| && s[r[k].0..r[k].1] == FlatUnit(units[k])
  {
    hide Starts, UnitStarts, FlatDescriptors, FlatUnits, FlatUnit, Quiet, After, UsesDelimiters, RangesOf, Offsets;
    hide IsTemporal, Separable, AnyDelimited, AllSeparable;
    PartsStart(set_, units);
    DelimitedMembers(units);
    UnitsFrom(units, |FlatDescriptors(set_)|, AnyDelimited(units), None, NO_UNIT);
    SeparableEach(AnyDelimited(units), None, units);
    if Regroupable(units) {
      RangesAreUnits(set_, units);
    }
  }

  lemma RangesAreUnits(set_: DescriptorSet, units: seq<TemporalUnit>)
    requires UnitStarts(FromParts(set_, units)) == Offsets(|FlatDescriptors(set_)|, units)
    ensures var s, r := FromParts(set_, units), UnitRanges(FromParts(set_, units));
            && |r| == |units|
            && forall k | 0 <= k < |r| :: r[k].0 < r[k].1 <= |s| && s[r[k].0..r[k].1] == FlatUnit(units[k])
  {
    hide UnitStarts, FlatDescriptors, FlatUnits, FlatUnit, RangesOf, Offsets, IsTemporal;
    var prologue, temporal := FlatDescriptors(set_), FlatUnits(units);
    RangesCover(prologue + temporal);
    OffsetsLength(|prologue|, units);
    forall k | 0 <= k < |units|
      ensures var (a, b) := RangesOf(Offsets(|prologue|, units), |prologue + temporal|)[k];
              a <= b <= |prologue + temporal|
              && (prologue + temporal)[a..b] == FlatUnit(units[k])
    {
      OffsetsSlice(prologue, units, k);
    }
  }

  lemma DelimitedMembers(units: seq<TemporalUnit>)
    ensures forall u | u in units :: u.hasDelimiter ==> AnyDelimited(units)
  {
  }

  /** The two kinds of stream the encoder and its documentation speak of are kept apart. */
  lemma EncodersRegroup(units: seq<TemporalUnit>, ids: seq<u32>)
    requires || (forall u | u in units :: u.hasDelimiter)
             || (ids != [] && Distinct(ids) &&
                 forall u | u in units :: !u.hasDelimiter && SubstreamIds(u.audioFrames) == ids)
    ensures Regroupable(units)
  {
    hide Distinct;
    forall k | 0 <= k < |units|
      ensures Separable(AnyDelimited(units), Preceding(None, units, k), units[k])
    {
      assert units[k] in units;
      if k > 0 {
        assert units[k - 1] in units;
      }
      assert SubstreamIds(units[k].audioFrames) == ids && ids != [] ==>
          units[k].audioFrames[0].payload.substreamId == ids[0];
    }
  }

  lemma {:induction false} OffsetsLength(base: nat, units: seq<TemporalUnit>)
    ensures |Offsets(base, units)| == |units|
    decreases |units|
  {
    if units != [] {
      OffsetsLength(base + |FlatUnit(units[0])|, units[1..]);
    }
  }

  lemma {:induction false} OffsetsSlice(pre: seq<SequenceObu>, units: seq<TemporalUnit>, k: nat)
    requires k < |units|
    ensures |Offsets(|pre|, units)| == |units|
    ensures var s := pre + FlatUnits(units);
            var (a, b) := RangesOf(Offsets(|pre|, units), |s|)[k];
            a <= b <= |s| && s[a..b] == FlatUnit(units[k])
    decreases |units|
  {
    hide FlatUnit;
    var u := FlatUnit(units[0]);
    var s := pre + FlatUnits(units);
    assert s == (pre + u) + FlatUnits(units[1..]);
    if units[1..] == [] {
      assert FlatUnits(units[1..]) == [];
      assert s[|pre|..|s|] == u;
    } else {
      OffsetsSlice(pre + u, units[1..], if k == 0 then 0 else k - 1);
      assert Offsets(|pre|, units)[1..] == Offsets(|pre + u|, units[1..]);
      if k == 0 {
        assert s[|pre|..|pre + u|] == u;
      }
    }
  }
}
