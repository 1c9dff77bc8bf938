/** Files as fragments over the frames of a stream (rust/src/archive.rs). */
module Fragments {
  import opened Clonepack
  import opened Seqs

  /** A frame's range of the stream: `lo` up to `hi`. */
  datatype Range = Range(lo: nat, hi: nat)

  type Bounds = seq<Range>

  /** The frames cover `[0, total)` end to end. */
  ghost predicate Tiles(bounds: Bounds, total: nat) {
    && |bounds| > 0
    && bounds[0].lo == 0
    && bounds[|bounds| - 1].hi == total
    && (forall k :: 0 <= k < |bounds| ==> bounds[k].lo <= bounds[k].hi)
    && (forall j, k :: 0 <= j < k < |bounds| && k == j + 1 ==> bounds[j].hi == bounds[k].lo)
  }

  ghost predicate FitsU32(bounds: Bounds) {
    && |bounds| <= U32_MAX
    && forall k :: 0 <= k < |bounds| ==> bounds[k].hi - bounds[k].lo <= U32_MAX
  }

  lemma {:induction false} TilesOrdered(bounds: Bounds, total: nat, i: nat, j: nat)
    requires Tiles(bounds, total)
    requires i <= j < |bounds|
    ensures bounds[i].lo <= bounds[j].lo
    ensures i < j ==> bounds[i].hi <= bounds[j].lo
    ensures bounds[i].hi <= bounds[j].hi <= total
    decreases |bounds| - i
  {
    if i < j {
      TilesOrdered(bounds, total, i + 1, j);
    } else if j + 1 < |bounds| {
      TilesOrdered(bounds, total, j + 1, |bounds| - 1);
    }
  }

  /** Read one after the other, the fragments are bytes `pos..end` of the stream. */
  ghost predicate Spells(frags: seq<Fragment>, bounds: Bounds, pos: nat, end: nat) {
    if frags == [] then pos == end else
      var f := frags[0];
      && f.frameIndex < |bounds|
      && bounds[f.frameIndex].lo + f.frameOffset == pos
      && pos + f.rawLen <= bounds[f.frameIndex].hi
      && Spells(frags[1..], bounds, pos + f.rawLen, end)
  }

  lemma {:induction false} SpellsSnoc(frags: seq<Fragment>, bounds: Bounds, pos: nat, mid: nat, f: Fragment)
    requires Spells(frags, bounds, pos, mid)
    requires f.frameIndex < |bounds|
    requires bounds[f.frameIndex].lo + f.frameOffset == mid
    requires mid + f.rawLen <= bounds[f.frameIndex].hi
    ensures Spells(frags + [f], bounds, pos, mid + f.rawLen)
  {
    if frags == [] {
      assert (frags + [f])[1..] == [];
    } else {
      SpellsSnoc(frags[1..], bounds, pos + frags[0].rawLen, mid, f);
      assert (frags + [f])[1..] == frags[1..] + [f];
    }
  }

  /** Each frame holds its range of the stream. */
  ghost predicate FramesOf(raws: seq<Bytes>, bounds: Bounds, stream: Bytes) {
    && |raws| == |bounds|
    && Tiles(bounds, |stream|)
    && forall k :: 0 <= k < |raws| ==>
       bounds[k].lo <= bounds[k].hi <= |stream| && raws[k] == stream[bounds[k].lo..bounds[k].hi]
  }

  predicate InFrame(f: Fragment, raws: seq<Bytes>) {
    f.frameIndex < |raws| && f.frameOffset + f.rawLen <= |raws[f.frameIndex]|
  }

  /** The bytes of one fragment; none when it does not lie in its frame. */
  function Piece(f: Fragment, raws: seq<Bytes>): Bytes {
    if InFrame(f, raws) then raws[f.frameIndex][f.frameOffset..f.frameOffset + f.rawLen] else []
  }

  /** The fragments read one after the other. */
  function Read(frags: seq<Fragment>, raws: seq<Bytes>): Bytes {
    if frags == [] then [] else Piece(frags[0], raws) + Read(frags[1..], raws)
  }

  function Length(frags: seq<Fragment>): nat {
    if frags == [] then 0 else frags[0].rawLen + Length(frags[1..])
  }

  lemma PieceBytes(f: Fragment, bounds: Bounds, raws: seq<Bytes>, stream: Bytes)
    requires FramesOf(raws, bounds, stream)
    requires f.frameIndex < |bounds|
    requires bounds[f.frameIndex].lo + f.frameOffset + f.rawLen <= bounds[f.frameIndex].hi
    ensures InFrame(f, raws)
    ensures var pos := bounds[f.frameIndex].lo + f.frameOffset;
      pos + f.rawLen <= |stream| && Piece(f, raws) == stream[pos..pos + f.rawLen]
  {
    SliceSlice(stream, bounds[f.frameIndex].lo, bounds[f.frameIndex].hi, f.frameOffset, f.frameOffset + f.rawLen);
  }

  /** Fragments that spell a range of the stream read back as its bytes. */
  lemma {:induction false} SpelledBytes(frags: seq<Fragment>, bounds: Bounds, raws: seq<Bytes>, stream: Bytes, pos: nat,
                                        end: nat)
    requires FramesOf(raws, bounds, stream)
    requires Spells(frags, bounds, pos, end)
    requires pos <= |stream|
    ensures pos <= end <= |stream|
    ensures Read(frags, raws) == stream[pos..end]
  {
    hide FramesOf, Piece, InFrame, Tiles;
    if frags == [] {
      assert stream[pos..end] == [];
    } else {
      var f := frags[0];
      var mid := pos + f.rawLen;
      PieceBytes(f, bounds, raws, stream);
      SpelledBytes(frags[1..], bounds, raws, stream, mid, end);
      assert stream[pos..end] == stream[pos..mid] + stream[mid..end];
    }
  }

  lemma {:induction false} SpelledInFrames(frags: seq<Fragment>, bounds: Bounds, raws: seq<Bytes>, stream: Bytes,
                                           pos: nat, end: nat)
    requires FramesOf(raws, bounds, stream)
    requires Spells(frags, bounds, pos, end)
    ensures forall i :: 0 <= i < |frags| ==> InFrame(frags[i], raws)
    ensures end == pos + Length(frags)
  {
    if frags != [] {
      PieceBytes(frags[0], bounds, raws, stream);
      SpelledInFrames(frags[1..], bounds, raws, stream, pos + frags[0].rawLen, end);
      assert forall i :: 0 < i < |frags| ==> frags[i] == frags[1..][i - 1];
    }
  }

  /** Every frame before `hint` ends by `pos`. */
  ghost predicate HintOk(bounds: Bounds, hint: nat, pos: nat) {
    hint < |bounds| && forall k :: 0 <= k < hint ==> bounds[k].hi <= pos
  }

  /** The fragments that spell `start..start + len`, and the frame to go on from: no
      frame before it reaches past that range. */
  method FragmentsFor(bounds: Bounds, start: nat, len: nat, hint0: nat, ghost total: nat)
    returns (r: Result<(seq<Fragment>, nat)>)
    requires bounds != [] ==> Tiles(bounds, total) && HintOk(bounds, hint0, start)
    requires start + len <= total
    ensures bounds == [] ==> r == Err(NoFrames)
    ensures bounds != [] && FitsU32(bounds) ==> r.Ok?
    ensures bounds != [] && r.Err? ==> r.error == Limit
    ensures r.Ok? ==> bounds != [] && r.value.0 != [] && Spells(r.value.0, bounds, start, start + len)
    ensures r.Ok? ==> HintOk(bounds, r.value.1, start + len)
  {
    if |bounds| == 0 {
      return Err(NoFrames);
    }
    var hint := hint0;
    while hint < |bounds| && bounds[hint].hi <= start && len > 0
      invariant HintOk(bounds, hint, start)
    {
      hint := hint + 1;
    }
    if len == 0 {
      var f := EmptyFileFragment(bounds, start, hint, total);
      return match f case Ok(f) => Ok(([f], hint)) case Err(e) => Err(e);
    }
    var frags := OverlapFragments(bounds, start, len, hint, total);
    return match frags case Ok(frags) => Ok((frags, hint)) case Err(e) => Err(e);
  }

  /** A fragment of no bytes at `start`, in a frame that reaches that far. */
  method EmptyFileFragment(bounds: Bounds, start: nat, hint: nat, ghost total: nat)
    returns (r: Result<Fragment>)
    requires Tiles(bounds, total) && HintOk(bounds, hint, start)
    requires start <= total
    ensures FitsU32(bounds) ==> r.Ok?
    ensures r.Err? ==> r.error == Limit
    ensures r.Ok? ==> Spells([r.value], bounds, start, start)
  {
    var idx := if hint < |bounds| then hint else |bounds| - 1;
    assert hint > 0 ==> bounds[hint - 1].hi == bounds[hint].lo;
    while idx + 1 < |bounds| && bounds[idx].hi <= start
      invariant idx < |bounds| && bounds[idx].lo <= start
    {
      idx := idx + 1;
    }
    var frs := bounds[idx].lo;
    if idx > U32_MAX || start - frs > U32_MAX {
      return Err(Limit);
    }
    SpellsSnoc([], bounds, start, start, Fragment(idx, start - frs, 0));
    return Ok(Fragment(idx, start - frs, 0));
  }

  /** The part of frame `k` in `start..end`. */
  function Overlap(r: Range, k: nat, start: nat, end: nat): Option<Fragment> {
    var os := if start > r.lo then start else r.lo;
    var oe := if end < r.hi then end else r.hi;
    if oe > os then Some(Fragment(k, os - r.lo, oe - os)) else None
  }

  /** How far the fragments over frames `hint..k` reach. */
  ghost function Reach(bounds: Bounds, hint: nat, k: nat, start: nat, end: nat): nat
    requires hint <= k <= |bounds|
  {
    if k == hint then start else if bounds[k - 1].hi < end then bounds[k - 1].hi else end
  }

  lemma OverlapStep(frags: seq<Fragment>, bounds: Bounds, hint: nat, k: nat, start: nat, end: nat, total: nat)
    requires Tiles(bounds, total) && start < end
    requires hint <= k < |bounds| && bounds[k].lo < end && start < bounds[hint].hi && bounds[hint].lo <= start
    requires Spells(frags, bounds, start, Reach(bounds, hint, k, start, end))
    ensures var o := Overlap(bounds[k], k, start, end);
      && Spells(if o.Some? then frags + [o.value] else frags, bounds, start, Reach(bounds, hint, k + 1, start, end))
      && (k == hint ==> o.Some?)
      && (o.Some? && FitsU32(bounds) ==> k <= U32_MAX && o.value.frameOffset + o.value.rawLen <= U32_MAX)
  {
    hide Spells;
    OverlapReach(bounds, hint, k, start, end, total);
    hide Overlap, Reach, Tiles, FitsU32;
    var o := Overlap(bounds[k], k, start, end);
    if o.Some? {
      SpellsSnoc(frags, bounds, start, Reach(bounds, hint, k, start, end), o.value);
    }
  }

  /** The part of frame `k` starts where the parts before it end. */
  lemma OverlapReach(bounds: Bounds, hint: nat, k: nat, start: nat, end: nat, total: nat)
    requires Tiles(bounds, total) && start < end
    requires hint <= k < |bounds| && bounds[k].lo < end && start < bounds[hint].hi && bounds[hint].lo <= start
    ensures var o, pos, reach := Overlap(bounds[k], k, start, end), Reach(bounds, hint, k, start, end),
                                 Reach(bounds, hint, k + 1, start, end);
      && (k == hint ==> o.Some?)
      && (o.None? ==> reach == pos)
      && (o.Some? ==>
        && o.value.frameIndex == k && bounds[k].lo + o.value.frameOffset == pos
        && pos + o.value.rawLen == reach
        && o.value.frameOffset + o.value.rawLen <= bounds[k].hi - bounds[k].lo
        && (FitsU32(bounds) ==> k <= U32_MAX && o.value.frameOffset + o.value.rawLen <= U32_MAX))
  {
    TilesOrdered(bounds, total, hint, k);
    assert k > hint ==> bounds[k - 1].hi == bounds[k].lo;
  }

  lemma NothingSpelled(bounds: Bounds, start: nat)
    ensures Spells([], bounds, start, start)
  {}

  /** Where the search for a range's frames may begin. */
  lemma HintCovers(bounds: Bounds, hint: nat, start: nat, total: nat)
    requires Tiles(bounds, total) && HintOk(bounds, hint, start)
    ensures hint < |bounds| && bounds[hint].lo <= start
  {
    assert hint > 0 ==> bounds[hint - 1].hi == bounds[hint].lo;
  }

  lemma ReachBegins(bounds: Bounds, hint: nat, start: nat, end: nat)
    requires hint <= |bounds|
    ensures Reach(bounds, hint, hint, start, end) == start
  {}

  /** Past the last frame that starts before `end`, all of the range is spelled. */
  lemma ReachEnds(bounds: Bounds, hint: nat, k: nat, start: nat, end: nat, total: nat)
    requires Tiles(bounds, total) && end <= total
    requires hint < k <= |bounds| && (k < |bounds| ==> end <= bounds[k].lo)
    ensures Reach(bounds, hint, k, start, end) == end
  {
    assert k < |bounds| ==> bounds[k - 1].hi == bounds[k].lo;
  }

  method OverlapFragments(bounds: Bounds, start: nat, len: nat, hint: nat, ghost total: nat)
    returns (r: Result<seq<Fragment>>)
    requires Tiles(bounds, total) && HintOk(bounds, hint, start) && start < bounds[hint].hi
    requires len > 0 && start + len <= total
    ensures FitsU32(bounds) ==> r.Ok?
    ensures r.Err? ==> r.error == Limit
    ensures r.Ok? ==> r.value != [] && Spells(r.value, bounds, start, start + len)
  {
    hide *;
    var end := start + len;
    HintCovers(bounds, hint, start, total);
    var frags: seq<Fragment> := [];
    var k := hint;
    NothingSpelled(bounds, start);
    ReachBegins(bounds, hint, start, end);
    while k < |bounds| && bounds[k].lo < end
      invariant hint <= k <= |bounds|
      invariant Spells(frags, bounds, start, Reach(bounds, hint, k, start, end))
      invariant k > hint ==> frags != []
    {
      OverlapStep(frags, bounds, hint, k, start, end, total);
      var o := Overlap(bounds[k], k, start, end);
      if o.Some? {
        if k > U32_MAX || o.value.frameOffset > U32_MAX || o.value.rawLen > U32_MAX {
          return Err(Limit);
        }
        frags := frags + [o.value];
      }
      k := k + 1;
    }
    ReachEnds(bounds, hint, k, start, end, total);
    return Ok(frags);
  }
}
