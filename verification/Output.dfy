/** What the frames of a planned build hold, whether or not the index was right
    about its base. */
module Outputs {
  import opened Clonepack
  import opened Seqs
  import opened Fragments
  import opened Archives
  import opened BaseIndexes
  import opened Plans

  /** The base frame's own bytes are those at its new place. */
  ghost predicate KeptHeld(env: Env, k: Kept, ix: BaseIndex, out: Bytes) {
    && k.frame < |ix.frames|
    && k.lo < k.hi <= |out|
    && Raw(env, ix.frames[k.frame]) == out[k.lo..k.hi]
  }

  ghost predicate AllHeld(env: Env, ks: seq<Kept>, ix: BaseIndex, out: Bytes) {
    forall i :: 0 <= i < |ks| ==> KeptHeld(env, ks[i], ix, out)
  }

  /** `a` and `b` have the same bytes in the ranges. */
  ghost predicate Agree(a: Bytes, b: Bytes, ranges: seq<Range>) {
    && |a| == |b|
    && forall g :: 0 <= g < |ranges| ==>
       ranges[g].lo <= ranges[g].hi <= |a| && a[ranges[g].lo..ranges[g].hi] == b[ranges[g].lo..ranges[g].hi]
  }

  /** The last kept frame over byte `i`. */
  ghost function Over(ks: seq<Kept>, i: nat): Option<nat> {
    if ks == [] then None
    else if ks[|ks| - 1].lo <= i < ks[|ks| - 1].hi then Some(|ks| - 1)
    else Over(ks[..|ks| - 1], i)
  }

  /** The kept frames' own bytes where they are, the new stream's elsewhere. */
  ghost function Output(env: Env, ks: seq<Kept>, ix: BaseIndex, stream: Bytes): Bytes {
    seq(|stream|, i requires 0 <= i < |stream| => OutputByte(env, ks, ix, stream, i))
  }

  ghost function OutputByte(env: Env, ks: seq<Kept>, ix: BaseIndex, stream: Bytes, i: nat): Byte
    requires i < |stream|
  {
    var m := Over(ks, i);
    if m.Some? && m.value < |ks| && ks[m.value].frame < |ix.frames| && ks[m.value].lo <= i
       && i - ks[m.value].lo < |Raw(env, ix.frames[ks[m.value].frame])|
    then Raw(env, ix.frames[ks[m.value].frame])[i - ks[m.value].lo] else stream[i]
  }

  ghost predicate Apart(ks: seq<Kept>) {
    && (forall i :: 0 <= i < |ks| ==> ks[i].lo < ks[i].hi)
    && forall i, j :: 0 <= i < j < |ks| ==> ks[i].hi <= ks[j].lo
  }

  lemma {:induction false} SpacedApart(ks: seq<Kept>, min: nat, n: nat)
    requires n <= |ks| && Spaced(ks, min) && forall i :: 0 <= i < |ks| ==> ks[i].lo < ks[i].hi
    ensures Apart(ks[..n])
  {
    if n > 1 {
      SpacedApart(ks, min, n - 1);
      assert ks[n - 2].hi <= ks[n - 1].lo;
      forall i, j | 0 <= i < j < n ensures ks[i].hi <= ks[j].lo {
        if j < n - 1 {
          assert ks[..n - 1][i].hi <= ks[..n - 1][j].lo;
        } else if i < n - 2 {
          assert ks[..n - 1][i].hi <= ks[..n - 1][n - 2].lo;
        }
      }
    }
  }

  lemma {:induction false} OverIs(ks: seq<Kept>, m: nat, i: nat)
    requires Apart(ks) && m < |ks| && ks[m].lo <= i < ks[m].hi
    ensures Over(ks, i) == Some(m)
  {
    var n := |ks| - 1;
    if m < n {
      OverIs(ks[..n], m, i);
    }
  }

  lemma {:induction false} OverNone(ks: seq<Kept>, i: nat)
    ensures Over(ks, i).Some? ==> Over(ks, i).value < |ks| && ks[Over(ks, i).value].lo <= i < ks[Over(ks, i).value].hi
  {
    if ks != [] {
      OverNone(ks[..|ks| - 1], i);
    }
  }

  /** A kept frame is as long as its place. */
  lemma KeptLength(env: Env, k: Kept, ix: BaseIndex, claimed: Bytes, stream: Bytes)
    requires FramesIndexed(env, ix) && KeptOk(k, ix, claimed, stream)
    ensures |Raw(env, ix.frames[k.frame])| == k.hi - k.lo
  {
    hide BundlesOk, ByRawOk, FramesOk, Concat, Raws, Raw;
    FrameSlice(env, ix, k.frame);
    assert |claimed[ix.starts[k.frame]..ix.starts[k.frame + 1]]| == |stream[k.lo..k.hi]|;
  }

  lemma KeptOutput(env: Env, ks: seq<Kept>, ix: BaseIndex, stream: Bytes, m: nat)
    requires Apart(ks) && m < |ks| && ks[m].frame < |ix.frames| && ks[m].hi <= |stream|
    requires |Raw(env, ix.frames[ks[m].frame])| == ks[m].hi - ks[m].lo
    ensures KeptHeld(env, ks[m], ix, Output(env, ks, ix, stream))
  {
    hide Raw;
    var raw, out := Raw(env, ix.frames[ks[m].frame]), Output(env, ks, ix, stream);
    forall i | ks[m].lo <= i < ks[m].hi ensures out[i] == raw[i - ks[m].lo] {
      OverIs(ks, m, i);
    }
    assert raw == out[ks[m].lo..ks[m].hi];
  }

  /** The kept frames hold the output at their places. */
  lemma OutputHeld(env: Env, ks: seq<Kept>, ix: BaseIndex, claimed: Bytes, stream: Bytes, min: nat)
    requires FramesIndexed(env, ix) && AllKeptOk(ks, ix, claimed, stream) && Spaced(ks, min)
    ensures AllHeld(env, ks, ix, Output(env, ks, ix, stream)) && Apart(ks)
  {
    hide FramesIndexed, Output;
    assert forall i :: 0 <= i < |ks| ==> KeptOk(ks[i], ix, claimed, stream);
    SpacedApart(ks, min, |ks|);
    assert ks[..|ks|] == ks;
    forall m | 0 <= m < |ks| ensures KeptHeld(env, ks[m], ix, Output(env, ks, ix, stream)) {
      KeptLength(env, ks[m], ix, claimed, stream);
      KeptOutput(env, ks, ix, stream, m);
    }
  }

  /** A gap meets no kept frame. */
  lemma {:induction false} GapsClear(ks: seq<Kept>, m: nat, pos: nat, total: nat)
    requires Apart(ks) && m <= |ks| && pos == if m == 0 then 0 else ks[m - 1].hi
    ensures forall g :: 0 <= g < |GapsOf(ks, m, pos, total)| ==> Clear(ks, GapsOf(ks, m, pos, total)[g])
    decreases |ks| - m
  {
    if m < |ks| {
      GapsClear(ks, m + 1, ks[m].hi, total);
    }
  }

  ghost predicate Clear(ks: seq<Kept>, gap: Range) {
    forall j :: 0 <= j < |ks| ==> ks[j].hi <= gap.lo || gap.hi <= ks[j].lo
  }

  /** Elsewhere the output is the new stream. */
  lemma OutputClear(env: Env, ks: seq<Kept>, ix: BaseIndex, stream: Bytes, gap: Range)
    requires Clear(ks, gap) && gap.lo <= gap.hi <= |stream|
    ensures Output(env, ks, ix, stream)[gap.lo..gap.hi] == stream[gap.lo..gap.hi]
  {
    hide Raw;
    var out := Output(env, ks, ix, stream);
    forall i | gap.lo <= i < gap.hi ensures out[i] == stream[i] {
      OverNone(ks, i);
    }
  }

  lemma OutputAgrees(env: Env, plan: Plan, ix: BaseIndex, claimed: Bytes, stream: Bytes, min: nat)
    requires FramesIndexed(env, ix) && PlanOk(plan, ix, claimed, stream, min)
    requires forall i :: 0 <= i < |plan.gaps| ==> plan.gaps[i].lo < plan.gaps[i].hi <= |stream|
    ensures Agree(Output(env, plan.reused, ix, stream), stream, plan.gaps)
  {
    hide FramesIndexed, Output;
    OutputHeld(env, plan.reused, ix, claimed, stream, min);
    GapsClear(plan.reused, 0, 0, |stream|);
    OutputCount(env, plan.reused, ix, stream);
    forall g | 0 <= g < |plan.gaps|
      ensures Output(env, plan.reused, ix, stream)[plan.gaps[g].lo..plan.gaps[g].hi] ==
        stream[plan.gaps[g].lo..plan.gaps[g].hi]
    {
      OutputClear(env, plan.reused, ix, stream, plan.gaps[g]);
    }
  }

  lemma OutputCount(env: Env, ks: seq<Kept>, ix: BaseIndex, stream: Bytes)
    ensures |Output(env, ks, ix, stream)| == |stream|
  {}

  /** When the index is right about its base, the output is the new stream. */
  lemma OutputExact(env: Env, ks: seq<Kept>, ix: BaseIndex, stream: Bytes)
    requires FramesIndexed(env, ix) && AllKeptOk(ks, ix, Concat(Raws(env, ix.frames)), stream)
    ensures Output(env, ks, ix, stream) == stream
  {
    hide FramesIndexed, Concat, Raws, Raw;
    var base := Concat(Raws(env, ix.frames));
    forall i | 0 <= i < |stream| ensures OutputByte(env, ks, ix, stream, i) == stream[i] {
      OverNone(ks, i);
      var m := Over(ks, i);
      if m.Some? {
        var k := ks[m.value];
        assert KeptOk(k, ix, base, stream);
        FrameSlice(env, ix, k.frame);
        assert Raw(env, ix.frames[k.frame])[i - k.lo] == stream[k.lo..k.hi][i - k.lo];
      }
    }
  }
}
