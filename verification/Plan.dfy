/** Which frames of the base an incremental build keeps, and which ranges it
    reads again (rust/src/archive.rs, `plan_incremental`). */
module Plans {
  import opened Clonepack
  import opened Seqs
  import opened Sorting
  import opened Fragments
  import opened Layouts
  import opened Archives
  import opened BaseIndexes

  /** Unchanged bytes: `oldLo..oldHi` of the base stream, at `newLo` of the new one. */
  datatype Segment = Segment(oldLo: nat, oldHi: nat, newLo: nat)

  /** A base frame to keep, at `lo..hi` of the new stream. */
  datatype Kept = Kept(lo: nat, hi: nat, frame: nat)

  datatype Plan = Plan(reused: seq<Kept>, gaps: seq<Range>)

  /** The most bytes of changed ranges held at a time. */
  const MAX_GAP_BYTES: nat := 128 * 1024 * 1024

  ghost predicate SegmentOk(s: Segment, base: Bytes, stream: Bytes) {
    && s.oldLo <= s.oldHi <= |base|
    && s.newLo + (s.oldHi - s.oldLo) <= |stream|
    && base[s.oldLo..s.oldHi] == stream[s.newLo..s.newLo + (s.oldHi - s.oldLo)]
  }

  ghost predicate SegmentsOk(ss: seq<Segment>, base: Bytes, stream: Bytes) {
    forall i :: 0 <= i < |ss| ==> SegmentOk(ss[i], base, stream)
  }

  lemma SegmentExtend(s: Segment, base: Bytes, stream: Bytes, size: nat)
    requires SegmentOk(s, base, stream)
    requires SegmentOk(Segment(s.oldHi, s.oldHi + size, s.newLo + (s.oldHi - s.oldLo)), base, stream)
    ensures SegmentOk(s.(oldHi := s.oldHi + size), base, stream)
  {
    var mid := s.newLo + (s.oldHi - s.oldLo);
    assert base[s.oldLo..s.oldHi + size] == base[s.oldLo..s.oldHi] + base[s.oldHi..s.oldHi + size];
    assert stream[s.newLo..mid + size] == stream[s.newLo..mid] + stream[mid..mid + size];
  }

  predicate Unchanged(ix: BaseIndex, file: TreeFile) {
    file.path in ix.files && ix.files[file.path].blob == file.oid
  }

  /** Every file's size, and where the unchanged ones were: the index answers for
      those, and its lengths are the blobs'. */
  method SizeFiles(env: Env, blobs: seq<TreeFile>, ix: BaseIndex, ghost claimed: Bytes)
    returns (sizes: seq<nat>, was: seq<Option<nat>>)
    requires FilesClaimed(env, ix, claimed)
    ensures sizes == BlobSizes(env, blobs) && |was| == |blobs|
    ensures forall i :: 0 <= i < |blobs| ==>
      was[i] == if Unchanged(ix, blobs[i]) then Some(ix.files[blobs[i].path].start) else None
  {
    sizes, was := [], [];
    for i := 0 to |blobs|
      invariant sizes == BlobSizes(env, blobs)[..i] && |was| == i
      invariant forall j :: 0 <= j < i ==>
        was[j] == if Unchanged(ix, blobs[j]) then Some(ix.files[blobs[j].path].start) else None
    {
      var file := blobs[i];
      if Unchanged(ix, file) {
        sizes, was := sizes + [ix.files[file.path].len], was + [Some(ix.files[file.path].start)];
      } else {
        sizes, was := sizes + [|env.blob(file.oid)|], was + [None];
      }
    }
  }

  /** Each unchanged file's bytes are the base's at its old start. */
  ghost predicate OldOk(was: seq<Option<nat>>, sizes: seq<nat>, base: Bytes, stream: Bytes) {
    && |was| == |sizes|
    && forall i :: 0 <= i < |was| && was[i].Some? ==>
         SegmentOk(Segment(was[i].value, was[i].value + sizes[i], Sum(sizes[..i])), base, stream)
  }

  lemma SizesOld(env: Env, blobs: seq<TreeFile>, ix: BaseIndex, sizes: seq<nat>, was: seq<Option<nat>>, claimed: Bytes)
    requires FilesClaimed(env, ix, claimed)
    requires sizes == BlobSizes(env, blobs) && |was| == |blobs|
    requires forall i :: 0 <= i < |blobs| ==>
      was[i] == if Unchanged(ix, blobs[i]) then Some(ix.files[blobs[i].path].start) else None
    ensures OldOk(was, sizes, claimed, Stream(env, blobs))
  {
    forall i | 0 <= i < |was| && was[i].Some?
      ensures SegmentOk(Segment(was[i].value, was[i].value + sizes[i], Sum(sizes[..i])), claimed, Stream(env, blobs))
    {
      ConcatPart(Contents(env, blobs), i);
      ConcatPrefixLength(Contents(env, blobs), i);
    }
  }

  /** One unchanged file more: extends the last run when it follows it in both streams. */
  function AddFile(segments: seq<Segment>, start: nat, size: nat, pos: nat): seq<Segment> {
    var n := |segments| - 1;
    if n >= 0 && segments[n].oldHi == start && segments[n].oldLo <= start
      && segments[n].newLo + (start - segments[n].oldLo) == pos
    then segments[n := segments[n].(oldHi := start + size)]
    else segments + [Segment(start, start + size, pos)]
  }

  lemma AddFileOk(segments: seq<Segment>, start: nat, size: nat, pos: nat, base: Bytes, stream: Bytes)
    requires SegmentsOk(segments, base, stream)
    requires SegmentOk(Segment(start, start + size, pos), base, stream)
    ensures SegmentsOk(AddFile(segments, start, size, pos), base, stream)
  {
    var n := |segments| - 1;
    if n >= 0 && segments[n].oldHi == start && segments[n].newLo + (start - segments[n].oldLo) == pos {
      SegmentExtend(segments[n], base, stream, size);
    }
    hide SegmentOk;
  }

  /** The runs: each is the same bytes of both streams. Files all in place make one. */
  method FindSegments(sizes: seq<nat>, was: seq<Option<nat>>, ghost base: Bytes, ghost stream: Bytes)
    returns (r: Result<(seq<Segment>, nat)>)
    requires OldOk(was, sizes, base, stream)
    ensures r.Err? <==> Sum(sizes) > U64_MAX
    ensures r.Err? ==> r.error == Limit
    ensures r.Ok? ==> SegmentsOk(r.value.0, base, stream) && r.value.1 == Sum(sizes)
    ensures r.Ok? && InPlace(was, sizes) && sizes != [] ==> r.value.0 == [Segment(0, Sum(sizes), 0)]
  {
    hide SegmentOk, SegmentsOk, Sum;
    assert Sum(sizes[..0]) == 0 by { SumEmpty(); }
    SegmentsNone(base, stream);
    var segments: seq<Segment>, pos: nat := [], 0;
    for i := 0 to |sizes|
      invariant pos == Sum(sizes[..i]) <= U64_MAX
      invariant SegmentsOk(segments, base, stream)
      invariant InPlace(was, sizes) ==> segments == if i == 0 then [] else [Segment(0, pos, 0)]
    {
      SumNext(sizes, i);
      SumMonotone(sizes, i + 1, |sizes|);
      if was[i].Some? {
        AddFileOk(segments, was[i].value, sizes[i], pos, base, stream);
        segments := AddFile(segments, was[i].value, sizes[i], pos);
      }
      pos := pos + sizes[i];
      if pos > U64_MAX {
        return Err(Limit);
      }
    }
    assert sizes[..|sizes|] == sizes;
    return Ok((segments, pos));
  }

  lemma SumEmpty()
    ensures Sum([]) == 0
  {}

  lemma SegmentsNone(base: Bytes, stream: Bytes)
    ensures SegmentsOk([], base, stream)
  {}

  /** Every file is unchanged and where it was. */
  ghost predicate InPlace(was: seq<Option<nat>>, sizes: seq<nat>) {
    && |was| == |sizes|
    && forall i :: 0 <= i < |was| ==> was[i] == Some(Sum(sizes[..i]))
  }

  /** The base frame's range of the claimed stream is the new stream's bytes at the
      frame's new place. */
  ghost predicate KeptOk(k: Kept, ix: BaseIndex, claimed: Bytes, stream: Bytes) {
    && k.frame < |ix.frames| && |ix.starts| == |ix.frames| + 1
    && k.lo < k.hi <= |stream|
    && ix.starts[k.frame] <= ix.starts[k.frame + 1] <= |claimed|
    && claimed[ix.starts[k.frame]..ix.starts[k.frame + 1]] == stream[k.lo..k.hi]
  }

  ghost predicate AllKeptOk(ks: seq<Kept>, ix: BaseIndex, claimed: Bytes, stream: Bytes) {
    forall i :: 0 <= i < |ks| ==> KeptOk(ks[i], ix, claimed, stream)
  }

  lemma SegmentSlice(s: Segment, base: Bytes, stream: Bytes, lo: nat, hi: nat)
    requires SegmentOk(s, base, stream)
    requires s.oldLo <= lo <= hi <= s.oldHi
    ensures var at := s.newLo + (lo - s.oldLo);
      at + (hi - lo) <= |stream| && base[lo..hi] == stream[at..at + (hi - lo)]
  {
    SliceSlice(base, s.oldLo, s.oldHi, lo - s.oldLo, hi - s.oldLo);
    SliceSlice(stream, s.newLo, s.newLo + (s.oldHi - s.oldLo), lo - s.oldLo, hi - s.oldLo);
  }

  lemma StartsOrdered(env: Env, ix: BaseIndex, k: nat)
    requires FramesIndexed(env, ix) && k < |ix.frames|
    ensures ix.starts[0] == 0 && ix.starts[k] <= ix.starts[k + 1] <= ix.starts[|ix.frames|]
  {
    hide BundlesOk, ByRawOk, FramesOk;
    SumMonotone(RawLens(ix.frames), k, k + 1);
    SumMonotone(RawLens(ix.frames), k + 1, |ix.frames|);
  }

  /** A frame is the base stream's slice at its start. */
  lemma FrameSlice(env: Env, ix: BaseIndex, k: nat)
    requires FramesIndexed(env, ix) && k < |ix.frames|
    ensures ix.starts[k] <= ix.starts[k + 1] <= |Concat(Raws(env, ix.frames))|
    ensures Concat(Raws(env, ix.frames))[ix.starts[k]..ix.starts[k + 1]] == Raw(env, ix.frames[k])
  {
    hide BundlesOk, ByRawOk, FramesOk;
    StartsAre(env, ix.frames, k);
    StartsAre(env, ix.frames, k + 1);
    ConcatPart(Raws(env, ix.frames), k);
  }

  /** A frame inside a segment moves with it. */
  lemma FrameInSegment(ix: BaseIndex, s: Segment, claimed: Bytes, stream: Bytes, k: nat)
    requires |ix.starts| == |ix.frames| + 1 && k < |ix.frames|
    requires SegmentOk(s, claimed, stream)
    requires s.oldLo <= ix.starts[k] < ix.starts[k + 1] <= s.oldHi
    ensures KeptOk(Kept(s.newLo + (ix.starts[k] - s.oldLo), s.newLo + (ix.starts[k + 1] - s.oldLo), k), ix, claimed,
      stream)
  {
    SegmentSlice(s, claimed, stream, ix.starts[k], ix.starts[k + 1]);
  }

  /** The frames of the base that hold bytes, where they are. */
  ghost function Themselves(ix: BaseIndex, n: nat): seq<Kept>
    requires n < |ix.starts|
  {
    if n == 0 then [] else
      Themselves(ix, n - 1)
      + if ix.starts[n - 1] < ix.starts[n] then [Kept(ix.starts[n - 1], ix.starts[n], n - 1)] else []
  }

  /** The frames found for the runs `byOld`, which are in the order of their old
      starts: each frame found moves with its run. One run over the first `m`
      frames finds those of them that hold bytes. */
  method KeepFrames(env: Env, ix: BaseIndex, byOld: seq<Segment>, ghost claimed: Bytes, ghost stream: Bytes,
                    ghost m: nat)
    returns (reused: seq<Kept>)
    requires FramesIndexed(env, ix) && SegmentsOk(byOld, claimed, stream) && m <= |ix.frames|
    ensures AllKeptOk(reused, ix, claimed, stream)
    ensures byOld == [Segment(0, ix.starts[m], 0)] ==> reused == Themselves(ix, m)
  {
    hide BundlesOk, ByRawOk, FramesOk, SegmentOk, KeptOk, Sum, RawLens;
    ghost var whole := byOld == [Segment(0, ix.starts[m], 0)];
    reused := [];
    var seg := 0;
    for k := 0 to |ix.frames|
      invariant AllKeptOk(reused, ix, claimed, stream)
      invariant whole ==> reused == Themselves(ix, if k <= m then k else m)
      invariant whole && k <= m ==> seg == 0 || ix.starts[k] == ix.starts[m]
    {
      var fs, fe := ix.starts[k], ix.starts[k + 1];
      StartsOrdered(env, ix, k);
      StartsAround(env, ix, k, m);
      if fe == fs {
        continue;
      }
      while seg < |byOld| && byOld[seg].oldHi <= fs
        invariant whole && fs < ix.starts[m] ==> seg == 0
      {
        seg := seg + 1;
      }
      if seg < |byOld| && byOld[seg].oldLo <= fs && fe <= byOld[seg].oldHi {
        var s := byOld[seg];
        FrameInSegment(ix, s, claimed, stream, k);
        reused := reused + [Kept(s.newLo + (fs - s.oldLo), s.newLo + (fe - s.oldLo), k)];
      }
    }
  }

  lemma StartsAround(env: Env, ix: BaseIndex, k: nat, m: nat)
    requires FramesIndexed(env, ix) && k < |ix.frames| && m <= |ix.frames|
    ensures k < m ==> ix.starts[k + 1] <= ix.starts[m]
    ensures m <= k ==> ix.starts[m] <= ix.starts[k]
  {
    hide BundlesOk, ByRawOk, FramesOk;
    if k < m {
      SumMonotone(RawLens(ix.frames), k + 1, m);
    } else {
      SumMonotone(RawLens(ix.frames), m, k);
    }
  }

  /** The kept frames are in order and apart by nothing or at least a minimum frame. */
  ghost predicate Spaced(ks: seq<Kept>, min: nat) {
    && (forall i, j :: 0 <= i < j < |ks| && j == i + 1 ==>
          ks[i].hi == ks[j].lo || ks[i].hi + min <= ks[j].lo)
    && (forall i, j :: 0 <= i < j < |ks| && j == i + 1 ==> ks[i].hi <= ks[j].lo)
    && (ks != [] ==> ks[0].lo == 0 || min <= ks[0].lo)
  }

  /** The frames follow one another from the start. */
  ghost predicate Adjacent(ks: seq<Kept>) {
    && (forall i, j :: 0 <= i < j < |ks| && j == i + 1 ==> ks[i].hi == ks[j].lo)
    && (ks != [] ==> ks[0].lo == 0)
  }

  lemma SpacedNext(ks: seq<Kept>, k: Kept, min: nat)
    requires Spaced(ks, min)
    requires var pos := if ks == [] then 0 else ks[|ks| - 1].hi; k.lo == pos || pos + min <= k.lo
    ensures Spaced(ks + [k], min)
  {}

  lemma AdjacentAt(ks: seq<Kept>, i: nat)
    requires Adjacent(ks) && i < |ks|
    ensures ks[i].lo == if i == 0 then 0 else ks[i - 1].hi
  {}

  lemma KeptNone(ix: BaseIndex, claimed: Bytes, stream: Bytes, min: nat)
    ensures AllKeptOk([], ix, claimed, stream) && Spaced([], min)
  {}

  lemma KeptNext(ks: seq<Kept>, reused: seq<Kept>, i: nat, ix: BaseIndex, claimed: Bytes, stream: Bytes)
    requires AllKeptOk(ks, ix, claimed, stream) && AllKeptOk(reused, ix, claimed, stream) && i < |reused|
    ensures AllKeptOk(ks + [reused[i]], ix, claimed, stream)
  {
    hide KeptOk;
  }

  /** The frames that can stay without a gap of fewer than `min` bytes before any
      of them; nothing when two of them overlap. */
  method DropShortGaps(reused: seq<Kept>, min: nat, ghost ix: BaseIndex, ghost claimed: Bytes, ghost stream: Bytes)
    returns (r: Option<seq<Kept>>)
    requires AllKeptOk(reused, ix, claimed, stream)
    ensures r.Some? ==> Spaced(r.value, min) && AllKeptOk(r.value, ix, claimed, stream)
    ensures Adjacent(reused) ==> r == Some(reused)
  {
    hide *;
    KeptNone(ix, claimed, stream, min);
    var kept: seq<Kept>, pos: nat := [], 0;
    for i := 0 to |reused|
      invariant Spaced(kept, min) && AllKeptOk(kept, ix, claimed, stream)
      invariant pos == if kept == [] then 0 else kept[|kept| - 1].hi
      invariant Adjacent(reused) ==> kept == reused[..i]
    {
      if Adjacent(reused) { AdjacentAt(reused, i); }
      var k := reused[i];
      if k.lo < pos {
        return None;
      }
      var gap := k.lo - pos;
      if gap > 0 && gap < min {
        continue;
      }
      SpacedNext(kept, k, min);
      KeptNext(kept, reused, i, ix, claimed, stream);
      kept := kept + [k];
      pos := k.hi;
    }
    assert reused[..|reused|] == reused;
    return Some(kept);
  }

  ghost predicate TailOk(ks: seq<Kept>, total: nat, min: nat) {
    ks != [] ==> ks[|ks| - 1].hi == total || ks[|ks| - 1].hi + min <= total
  }

  /** Drop frames at the end until the tail is empty or long enough. */
  method TrimTail(kept: seq<Kept>, total: nat, min: nat) returns (r: seq<Kept>)
    requires forall i :: 0 <= i < |kept| ==> kept[i].hi <= total
    ensures r <= kept && TailOk(r, total, min)
    ensures kept != [] && kept[|kept| - 1].hi == total ==> r == kept
  {
    r := kept;
    while |r| > 0
      invariant r <= kept
      invariant kept != [] && kept[|kept| - 1].hi == total ==> r == kept
    {
      var tail := total - r[|r| - 1].hi;
      if tail == 0 || tail >= min {
        break;
      }
      r := r[..|r| - 1];
    }
  }

  /** The ranges between the kept frames from the `m`th on, after `pos`. */
  ghost function GapsOf(ks: seq<Kept>, m: nat, pos: nat, total: nat): seq<Range>
    requires m <= |ks|
    decreases |ks| - m
  {
    if m == |ks| then
      if pos < total then [Range(pos, total)] else []
    else
      (if pos < ks[m].lo then [Range(pos, ks[m].lo)] else []) + GapsOf(ks, m + 1, ks[m].hi, total)
  }

  method FindGaps(kept: seq<Kept>, total: nat) returns (gaps: seq<Range>)
    ensures gaps == GapsOf(kept, 0, 0, total)
  {
    var pos: nat := 0;
    gaps := [];
    for m := 0 to |kept|
      invariant gaps + GapsOf(kept, m, pos, total) == GapsOf(kept, 0, 0, total)
    {
      if kept[m].lo > pos {
        gaps := gaps + [Range(pos, kept[m].lo)];
      }
      pos := kept[m].hi;
    }
    if total > pos {
      gaps := gaps + [Range(pos, total)];
    }
  }

  ghost predicate GapsLong(gaps: seq<Range>, min: nat) {
    forall i :: 0 <= i < |gaps| ==> gaps[i].lo < gaps[i].hi && gaps[i].lo + min <= gaps[i].hi
  }

  /** No gap is shorter than a minimum frame. */
  lemma {:induction false} GapsAreLong(ks: seq<Kept>, m: nat, pos: nat, total: nat, min: nat)
    requires m <= |ks| && Spaced(ks, min) && TailOk(ks, total, min) && ks != []
    requires pos == if m == 0 then 0 else ks[m - 1].hi
    ensures GapsLong(GapsOf(ks, m, pos, total), min)
    decreases |ks| - m
  {
    if m < |ks| {
      GapsAreLong(ks, m + 1, ks[m].hi, total, min);
    }
  }

  function GapBytes(gaps: seq<Range>): nat {
    if gaps == [] then 0 else
      GapBytes(gaps[..|gaps| - 1]) + if gaps[|gaps| - 1].lo <= gaps[|gaps| - 1].hi
        then gaps[|gaps| - 1].hi - gaps[|gaps| - 1].lo else 0
  }

  /** What a plan promises: each kept frame is claimed to hold the new stream's bytes
      at its place, the gaps are the rest, each at least a minimum frame and small
      enough to read at once, and together at most half the stream. */
  ghost predicate PlanOk(plan: Plan, ix: BaseIndex, claimed: Bytes, stream: Bytes, min: nat) {
    && AllKeptOk(plan.reused, ix, claimed, stream)
    && plan.reused != [] && Spaced(plan.reused, min)
    && plan.gaps == GapsOf(plan.reused, 0, 0, |stream|)
    && GapsLong(plan.gaps, min)
    && GapBytes(plan.gaps) <= |stream| / 2
    && (forall i :: 0 <= i < |plan.gaps| ==> plan.gaps[i].hi <= plan.gaps[i].lo + MAX_GAP_BYTES)
  }

  /** The frames to keep of those found, and the gaps, when a plan is worth it. */
  method MakePlan(reused: seq<Kept>, total: nat, min: nat, ghost ix: BaseIndex, ghost claimed: Bytes,
                  ghost stream: Bytes)
    returns (r: Option<Plan>)
    requires AllKeptOk(reused, ix, claimed, stream) && total == |stream|
    ensures r.Some? ==> PlanOk(r.value, ix, claimed, stream, min)
    ensures Adjacent(reused) && reused != [] && reused[|reused| - 1].hi == total ==> r == Some(Plan(reused, []))
  {
    hide KeptOk, AllKeptOk, Spaced, Adjacent, GapsOf, GapsLong, TailOk;
    var spaced := DropShortGaps(reused, min, ix, claimed, stream);
    if spaced.None? {
      return None;
    }
    KeptInside(spaced.value, ix, claimed, stream);
    var kept := TrimTail(spaced.value, total, min);
    if |kept| == 0 {
      return None;
    }
    PlanPrefix(spaced.value, kept, min, ix, claimed, stream);
    var gaps := FindGaps(kept, total);
    GapsAreLong(kept, 0, 0, total, min);
    if Adjacent(reused) && reused[|reused| - 1].hi == total {
      NoGaps(reused, 0, 0, total);
    }
    var large := exists i :: 0 <= i < |gaps| && gaps[i].hi - gaps[i].lo > MAX_GAP_BYTES;
    if GapBytes(gaps) > total / 2 || large {
      return None;
    }
    return Some(Plan(kept, gaps));
  }

  lemma KeptInside(kept: seq<Kept>, ix: BaseIndex, claimed: Bytes, stream: Bytes)
    requires AllKeptOk(kept, ix, claimed, stream)
    ensures forall i :: 0 <= i < |kept| ==> kept[i].hi <= |stream|
  {}

  lemma PlanPrefix(ks: seq<Kept>, p: seq<Kept>, min: nat, ix: BaseIndex, claimed: Bytes, stream: Bytes)
    requires Spaced(ks, min) && AllKeptOk(ks, ix, claimed, stream) && p <= ks
    ensures Spaced(p, min) && AllKeptOk(p, ix, claimed, stream)
  {
    hide KeptOk;
  }

  lemma {:induction false} NoGaps(ks: seq<Kept>, m: nat, pos: nat, total: nat)
    requires Adjacent(ks) && ks != [] && ks[|ks| - 1].hi == total
    requires m <= |ks| && pos == if m == 0 then 0 else ks[m - 1].hi
    ensures GapsOf(ks, m, pos, total) == []
    decreases |ks| - m
  {
    if m < |ks| {
      NoGaps(ks, m + 1, ks[m].hi, total);
    }
  }

  /** Every file is as it was in the base, in the same place, and the files end
      where the first `m` frames do. */
  ghost predicate Unmoved(env: Env, blobs: seq<TreeFile>, ix: BaseIndex, m: nat) {
    && m <= |ix.frames|
    && |ix.starts| == |ix.frames| + 1
    && (forall i :: 0 <= i < |blobs| ==>
          Unchanged(ix, blobs[i]) && ix.files[blobs[i].path].start == Sum(BlobSizes(env, blobs)[..i]))
    && Sum(BlobSizes(env, blobs)) == ix.starts[m]
  }

  /** The base's own frames are in order, adjacent and reach its end. */
  lemma {:induction false} ThemselvesAdjacent(env: Env, ix: BaseIndex, n: nat)
    requires FramesIndexed(env, ix) && n <= |ix.frames|
    ensures Adjacent(Themselves(ix, n))
    ensures var ks := Themselves(ix, n); ix.starts[n] == if ks == [] then 0 else ks[|ks| - 1].hi
  {
    hide BundlesOk, ByRawOk, FramesOk, Sum, RawLens;
    if n == 0 {
      StartsZero(env, ix);
    } else {
      ThemselvesAdjacent(env, ix, n - 1);
      StartsOrdered(env, ix, n - 1);
    }
  }

  lemma StartsZero(env: Env, ix: BaseIndex)
    requires FramesIndexed(env, ix)
    ensures ix.starts[0] == 0
  {
    hide BundlesOk, ByRawOk, FramesOk;
  }

  lemma {:induction false} ThemselvesSorted(env: Env, ix: BaseIndex, n: nat)
    requires FramesIndexed(env, ix) && n <= |ix.frames|
    ensures forall i, j :: 0 <= i < j < |Themselves(ix, n)| ==> Themselves(ix, n)[i].lo <= Themselves(ix, n)[j].lo
    ensures forall i :: 0 <= i < |Themselves(ix, n)| ==> Themselves(ix, n)[i].lo <= ix.starts[n]
  {
    hide BundlesOk, ByRawOk, FramesOk, Sum, RawLens;
    if n > 0 {
      ThemselvesSorted(env, ix, n - 1);
      StartsOrdered(env, ix, n - 1);
    }
  }

  function ByOldStart(segments: seq<Segment>): seq<Segment> {
    SortBy((s: Segment) => s.oldLo, segments)
  }

  function ByNewStart(ks: seq<Kept>): seq<Kept> {
    SortBy((k: Kept) => k.lo, ks)
  }

  lemma SegmentsSorted(segments: seq<Segment>, base: Bytes, stream: Bytes)
    requires SegmentsOk(segments, base, stream)
    ensures SegmentsOk(ByOldStart(segments), base, stream)
    ensures |segments| == 1 ==> ByOldStart(segments) == segments
  {
    hide SegmentOk;
    forall i | 0 <= i < |ByOldStart(segments)| ensures SegmentOk(ByOldStart(segments)[i], base, stream) {
      SortByMember((s: Segment) => s.oldLo, segments, i);
    }
    if |segments| == 1 {
      SortBySame((s: Segment) => s.oldLo, segments);
    }
  }

  lemma KeptSorted(ks: seq<Kept>, ix: BaseIndex, claimed: Bytes, stream: Bytes)
    requires AllKeptOk(ks, ix, claimed, stream)
    ensures AllKeptOk(ByNewStart(ks), ix, claimed, stream)
    ensures (forall i, j :: 0 <= i < j < |ks| ==> ks[i].lo <= ks[j].lo) ==> ByNewStart(ks) == ks
  {
    hide KeptOk;
    forall i | 0 <= i < |ByNewStart(ks)| ensures KeptOk(ByNewStart(ks)[i], ix, claimed, stream) {
      SortByMember((k: Kept) => k.lo, ks, i);
    }
    if forall i, j :: 0 <= i < j < |ks| ==> ks[i].lo <= ks[j].lo {
      SortBySame((k: Kept) => k.lo, ks);
    }
  }

  /** Plan an incremental build: the base frames that stay and the ranges in between
      to cut anew, or nothing when streaming everything is better. `claimed` is the
      stream the index gives its files' ranges of. A tree whose files are all where
      they were, up to the end of the first `m` frames, keeps exactly those frames
      and reads nothing. */
  method PlanIncremental(env: Env, blobs: seq<TreeFile>, ix: BaseIndex, min: nat, ghost claimed: Bytes, ghost m: nat)
    returns (r: Result<Option<(Plan, seq<nat>)>>)
    requires FramesIndexed(env, ix) && FilesClaimed(env, ix, claimed)
    ensures r.Err? ==> r.error == Limit
    ensures r.Err? <==> Sum(BlobSizes(env, blobs)) > U64_MAX
    ensures r.Ok? && r.value.Some? ==>
      r.value.value.1 == BlobSizes(env, blobs) && PlanOk(r.value.value.0, ix, claimed, Stream(env, blobs), min)
    ensures r.Ok? && Unmoved(env, blobs, ix, m) && Sum(BlobSizes(env, blobs)) > 0 ==>
      r.value == Some((Plan(Themselves(ix, m), []), BlobSizes(env, blobs)))
  {
    hide *;
    var sizes, was := SizeFiles(env, blobs, ix, claimed);
    SizesOld(env, blobs, ix, sizes, was, claimed);
    ghost var stream := Stream(env, blobs);
    var found := FindSegments(sizes, was, claimed, stream);
    if found.Err? {
      return Err(found.error);
    }
    var segments, total := found.value.0, found.value.1;
    if total == 0 {
      return Ok(None);
    }
    SegmentsSorted(segments, claimed, stream);
    ghost var unmoved := Unmoved(env, blobs, ix, m);
    if unmoved { UnmovedInPlace(env, blobs, ix, was, sizes, m); }
    var reused := KeepFrames(env, ix, ByOldStart(segments), claimed, stream, if unmoved then m else 0);
    KeptSorted(reused, ix, claimed, stream);
    StreamTotal(env, blobs);
    var plan := MakePlan(ByNewStart(reused), total, min, ix, claimed, stream);
    if unmoved {
      ThemselvesAdjacent(env, ix, m);
      ThemselvesSorted(env, ix, m);
    }
    return match plan case Some(p) => Ok(Some((p, sizes))) case None => Ok(None);
  }

  lemma StreamTotal(env: Env, blobs: seq<TreeFile>)
    ensures |Stream(env, blobs)| == Sum(BlobSizes(env, blobs))
  {
    ConcatLength(Contents(env, blobs));
  }

  lemma UnmovedInPlace(env: Env, blobs: seq<TreeFile>, ix: BaseIndex, was: seq<Option<nat>>, sizes: seq<nat>, m: nat)
    requires Unmoved(env, blobs, ix, m) && sizes == BlobSizes(env, blobs) && |was| == |blobs|
    requires forall i :: 0 <= i < |blobs| ==>
      was[i] == if Unchanged(ix, blobs[i]) then Some(ix.files[blobs[i].path].start) else None
    requires Sum(sizes) > 0
    ensures InPlace(was, sizes) && sizes != []
    ensures m <= |ix.frames| && |ix.starts| == |ix.frames| + 1 && Sum(sizes) == ix.starts[m]
  {}
}
