/** History levels and their compaction (rust/src/pack.rs, `compact_levels`;
    rust/src/server/builder.rs, `seal_and_compact`). */
module Histories {
  import opened Clonepack
  import opened Seqs

  type Objects = set<Oid>

  /** The objects each commit or tag reaches. */
  datatype Graph = Graph(reach: Oid -> Objects)

  /** Packs for the commits after the level before, up to `tip`. */
  datatype Level = Level(tip: Oid, objects: Objects, bytes: nat)

  /** git's range walk: packs with everything `tip` reaches that `exclude` does
      not, and nothing `tip` does not reach. */
  type RangeBuilder = (Oid, Option<Oid>) -> Result<(Objects, nat)>

  function Excluded(g: Graph, exclude: Option<Oid>): Objects {
    if exclude.Some? then g.reach(exclude.value) else {}
  }

  ghost predicate RangeOk(g: Graph, tip: Oid, exclude: Option<Oid>, objects: Objects) {
    g.reach(tip) - Excluded(g, exclude) <= objects <= g.reach(tip)
  }

  ghost predicate BuilderOk(g: Graph, build: RangeBuilder) {
    forall tip, exclude :: build(tip, exclude).Ok? ==> RangeOk(g, tip, exclude, build(tip, exclude).value.0)
  }

  function Before(levels: seq<Level>, i: nat): Option<Oid>
    requires i <= |levels|
  {
    if i == 0 then None else Some(levels[i - 1].tip)
  }

  /** Each level covers the range from the one before it. */
  ghost predicate LevelsOk(g: Graph, levels: seq<Level>) {
    forall i :: 0 <= i < |levels| ==> RangeOk(g, levels[i].tip, Before(levels, i), levels[i].objects)
  }

  ghost function AllObjects(levels: seq<Level>): Objects {
    if levels == [] then {} else AllObjects(levels[..|levels| - 1]) + levels[|levels| - 1].objects
  }

  /** The levels hold everything the newest tip reaches. */
  lemma {:induction false} LevelsComplete(g: Graph, levels: seq<Level>)
    requires LevelsOk(g, levels) && levels != []
    ensures g.reach(levels[|levels| - 1].tip) <= AllObjects(levels)
  {
    var n := |levels| - 1;
    var front := levels[..n];
    if n > 0 {
      forall i | 0 <= i < n ensures RangeOk(g, front[i].tip, Before(front, i), front[i].objects) {
        assert RangeOk(g, levels[i].tip, Before(levels, i), levels[i].objects);
      }
      LevelsComplete(g, front);
    }
    assert RangeOk(g, levels[n].tip, Before(levels, n), levels[n].objects);
  }

  function PairBytes(levels: seq<Level>, i: nat): nat
    requires i + 1 < |levels|
  {
    levels[i].bytes + levels[i + 1].bytes
  }

  /** The first adjacent pair of least size. */
  ghost predicate IsLeast(levels: seq<Level>, best: nat) {
    && best + 1 < |levels|
    && (forall i: nat :: i + 1 < |levels| ==> PairBytes(levels, best) <= PairBytes(levels, i))
    && (forall i: nat :: i < best ==> PairBytes(levels, best) < PairBytes(levels, i))
  }

  ghost predicate BytesFit(levels: seq<Level>) {
    forall i: nat :: i + 1 < |levels| ==> PairBytes(levels, i) <= U64_MAX
  }

  method LeastPair(levels: seq<Level>) returns (best: nat)
    requires |levels| >= 2
    ensures best + 1 < |levels|
    ensures BytesFit(levels) ==> IsLeast(levels, best)
  {
    best := 0;
    var bestBytes := U64_MAX;
    for i := 0 to |levels| - 1
      invariant best + 1 < |levels| && bestBytes <= U64_MAX
      invariant forall j :: 0 <= j < i ==> bestBytes <= PairBytes(levels, j)
      invariant bestBytes == U64_MAX || (best < i && bestBytes == PairBytes(levels, best))
      invariant bestBytes == U64_MAX ==> best == 0
      invariant forall j :: 0 <= j < best ==> bestBytes < PairBytes(levels, j)
    {
      var b := PairBytes(levels, i);
      if b < bestBytes {
        bestBytes := b;
        best := i;
      }
    }
    if BytesFit(levels) {
      assert PairBytes(levels, best) <= U64_MAX;
    }
  }

  function Merged(levels: seq<Level>, i: nat, m: Level): seq<Level>
    requires i + 1 < |levels|
  {
    levels[..i] + [m] + levels[i + 2..]
  }

  /** One merge: a least pair becomes one level over both ranges. */
  ghost predicate MergeStep(g: Graph, a: seq<Level>, b: seq<Level>) {
    exists i: nat, m :: IsMerge(g, a, b, i, m)
  }

  ghost predicate IsMerge(g: Graph, a: seq<Level>, b: seq<Level>, i: nat, m: Level) {
    && i + 1 < |a| && b == Merged(a, i, m) && m.tip == a[i + 1].tip
    && RangeOk(g, m.tip, Before(a, i), m.objects)
    && (BytesFit(a) ==> IsLeast(a, i))
  }

  lemma MergedAt(a: seq<Level>, i: nat, m: Level)
    requires i + 1 < |a|
    ensures var b := Merged(a, i, m);
      && |b| == |a| - 1 && b[i] == m
      && (forall k :: 0 <= k < i ==> b[k] == a[k])
      && (forall k :: i < k < |b| ==> b[k] == a[k + 1])
  {}

  /** What comes before each level still does. */
  lemma MergedBefore(a: seq<Level>, i: nat, m: Level, k: nat)
    requires i + 1 < |a| && k + 1 < |a| && m.tip == a[i + 1].tip
    ensures k < |Merged(a, i, m)| && Before(Merged(a, i, m), k) == if k <= i then Before(a, k) else Before(a, k + 1)
  {}

  /** A merge keeps the levels right and the newest tip. */
  lemma MergeKeeps(g: Graph, a: seq<Level>, b: seq<Level>)
    requires LevelsOk(g, a) && MergeStep(g, a, b)
    ensures LevelsOk(g, b) && |b| == |a| - 1 && b != [] && b[|b| - 1].tip == a[|a| - 1].tip
  {
    hide RangeOk, BytesFit, IsLeast, Merged;
    var i: nat, m :| IsMerge(g, a, b, i, m);
    MergedAt(a, i, m);
    forall k: nat | k < |b| ensures RangeOk(g, b[k].tip, Before(b, k), b[k].objects) {
      MergedBefore(a, i, m, k);
      if k < i {
        assert RangeOk(g, a[k].tip, Before(a, k), a[k].objects);
      } else if k > i {
        assert RangeOk(g, a[k + 1].tip, Before(a, k + 1), a[k + 1].objects);
      }
    }
  }

  /** Every step of the run is a merge. */
  ghost predicate IsRun(g: Graph, run: seq<seq<Level>>) {
    run != [] && forall i, j :: 0 <= i < j < |run| && j == i + 1 ==> MergeStep(g, run[i], run[j])
  }

  /** Merge least pairs until at most `max` levels are left. */
  method CompactLevels(g: Graph, build: RangeBuilder, levels0: seq<Level>, max: nat)
    returns (r: Result<seq<Level>>, ghost run: seq<seq<Level>>)
    requires BuilderOk(g, build) && LevelsOk(g, levels0)
    ensures r.Ok? ==> IsRun(g, run) && run[0] == levels0 && run[|run| - 1] == r.value
    ensures r.Ok? ==>
      LevelsOk(g, r.value) && |r.value| == if |levels0| <= AtLeastOne(max) then |levels0| else AtLeastOne(max)
    ensures r.Ok? && levels0 != [] ==> r.value != [] && r.value[|r.value| - 1].tip == levels0[|levels0| - 1].tip
    ensures |levels0| <= AtLeastOne(max) ==> r == Ok(levels0)
  {
    hide LevelsOk, BuilderOk, MergeStep;
    var levels := levels0;
    run := [levels];
    while |levels| > AtLeastOne(max) && |levels| >= 2
      invariant LevelsOk(g, levels) && IsRun(g, run) && run[0] == levels0 && run[|run| - 1] == levels
      invariant |levels| <= |levels0| && (|levels| < |levels0| ==> |levels| >= AtLeastOne(max))
      invariant levels0 != [] ==> levels != [] && levels[|levels| - 1].tip == levels0[|levels0| - 1].tip
      invariant |levels0| <= AtLeastOne(max) ==> levels == levels0
      decreases |levels|
    {
      var best := LeastPair(levels);
      var start, tip := Before(levels, best), levels[best + 1].tip;
      var packs := build(tip, start);
      if packs.Err? {
        return Err(packs.error), run;
      }
      var m := Level(tip, packs.value.0, packs.value.1);
      var next := levels[..best] + [m] + levels[best + 2..];
      IsStep(g, build, levels, next, best, m);
      MergeKeeps(g, levels, next);
      RunNext(g, run, next);
      levels := next;
      run := run + [levels];
    }
    return Ok(levels), run;
  }

  lemma IsStep(g: Graph, build: RangeBuilder, a: seq<Level>, b: seq<Level>, i: nat, m: Level)
    requires BuilderOk(g, build) && i + 1 < |a| && b == Merged(a, i, m) && (BytesFit(a) ==> IsLeast(a, i))
    requires m.tip == a[i + 1].tip && build(m.tip, Before(a, i)).Ok? && m.objects == build(m.tip, Before(a, i)).value.0
    ensures MergeStep(g, a, b)
  {
    assert IsMerge(g, a, b, i, m);
  }

  lemma RunNext(g: Graph, run: seq<seq<Level>>, next: seq<Level>)
    requires IsRun(g, run) && MergeStep(g, run[|run| - 1], next)
    ensures IsRun(g, run + [next])
  {
    hide MergeStep;
    var longer := run + [next];
    forall i, j | 0 <= i < j < |longer| && j == i + 1 ensures MergeStep(g, longer[i], longer[j]) {
      if j < |run| {
        assert MergeStep(g, run[i], run[j]);
      }
    }
  }

  /** A Full build's history: build the tail after the sealed tip, or everything
      when there are no levels or the tail cannot be listed; seal it; compact.
      The levels then hold everything the commit reaches, under `max` levels. */
  method SealAndCompact(g: Graph, build: RangeBuilder, commit: Oid, previous: seq<Level>, max: nat)
    returns (r: Result<seq<Level>>)
    requires BuilderOk(g, build) && LevelsOk(g, previous)
    ensures r.Ok? ==> LevelsOk(g, r.value) && g.reach(commit) <= AllObjects(r.value)
    ensures r.Ok? && |previous| <= AtLeastOne(max) ==> |r.value| <= AtLeastOne(max)
  {
    hide LevelsOk, BuilderOk, AllObjects;
    var levels := previous;
    var sealed := Before(levels, |levels|);
    var tail := build(commit, sealed);
    if sealed.Some? && tail.Err? {
      levels, sealed := [], None;
      NoLevels(g);
      tail := build(commit, None);
    }
    if tail.Err? {
      return Err(tail.error);
    }
    BuiltRange(g, build, commit, sealed);
    if sealed != Some(commit) && tail.value.0 != {} {
      SealedOk(g, levels, Level(commit, tail.value.0, tail.value.1));
      levels := levels + [Level(commit, tail.value.0, tail.value.1)];
    }
    Covered(g, levels, commit, sealed, tail.value.0);
    if |levels| > max {
      var compacted; ghost var run;
      compacted, run := CompactLevels(g, build, levels, max);
      if compacted.Err? {
        return Err(compacted.error);
      }
      if levels != [] {
        LevelsComplete(g, compacted.value);
        LevelsComplete(g, levels);
      }
      NewestReaches(g, levels, compacted.value, commit);
      return Ok(compacted.value);
    }
    if levels != [] {
      LevelsComplete(g, levels);
    }
    NewestReaches(g, levels, levels, commit);
    return Ok(levels);
  }

  lemma NoLevels(g: Graph)
    ensures LevelsOk(g, [])
  {}

  lemma BuiltRange(g: Graph, build: RangeBuilder, tip: Oid, exclude: Option<Oid>)
    requires BuilderOk(g, build) && build(tip, exclude).Ok?
    ensures RangeOk(g, tip, exclude, build(tip, exclude).value.0)
  {}

  lemma SealedOk(g: Graph, levels: seq<Level>, l: Level)
    requires LevelsOk(g, levels) && RangeOk(g, l.tip, Before(levels, |levels|), l.objects)
    ensures LevelsOk(g, levels + [l])
  {
    var next := levels + [l];
    forall i | 0 <= i < |next| ensures RangeOk(g, next[i].tip, Before(next, i), next[i].objects) {
      if i < |levels| {
        assert RangeOk(g, levels[i].tip, Before(levels, i), levels[i].objects);
      }
    }
  }

  /** What the commit reaches, the newest level's tip reaches too. */
  ghost predicate TipHolds(g: Graph, levels: seq<Level>, commit: Oid) {
    if levels == [] then g.reach(commit) == {} else g.reach(commit) <= g.reach(levels[|levels| - 1].tip)
  }

  lemma Covered(g: Graph, levels: seq<Level>, commit: Oid, sealed: Option<Oid>, tail: Objects)
    requires RangeOk(g, commit, sealed, tail)
    requires if sealed != Some(commit) && tail != {} then levels != [] && levels[|levels| - 1].tip == commit
      else sealed == Before(levels, |levels|)
    ensures TipHolds(g, levels, commit)
  {
    if !(sealed != Some(commit) && tail != {}) && sealed != Some(commit) {
      assert forall x :: x in g.reach(commit) ==> x in Excluded(g, sealed) || x in tail;
    }
  }

  lemma NewestReaches(g: Graph, levels: seq<Level>, kept: seq<Level>, commit: Oid)
    requires TipHolds(g, levels, commit) && (levels == [] ==> kept == [])
    requires levels != [] ==>
      kept != [] && kept[|kept| - 1].tip == levels[|levels| - 1].tip
      && g.reach(kept[|kept| - 1].tip) <= AllObjects(kept)
    ensures g.reach(commit) <= AllObjects(kept)
  {}
}
