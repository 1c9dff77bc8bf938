/** Reading, cutting and merging the changed ranges (rust/src/archive.rs,
    `cut_gaps` and `build_gaps`). */
module Gaps {
  import opened Clonepack
  import opened Seqs
  import opened Fragments
  import opened Layouts
  import opened Archives
  import opened BaseIndexes
  import opened Bundlers
  import opened Streams
  import opened Plans
  import opened Outputs

  /** The number of starts up to `x`; the starts are in order. */
  function PartitionPoint(starts: seq<nat>, x: nat): (n: nat)
    ensures n <= |starts|
    ensures forall i :: 0 <= i < n ==> starts[i] <= x
    ensures n < |starts| ==> starts[n] > x
  {
    if starts == [] || starts[0] > x then 0 else 1 + PartitionPoint(starts[1..], x)
  }

  function Clamp(x: nat, gap: Range): nat {
    if x < gap.lo then gap.lo else if x < gap.hi then x else gap.hi
  }

  /** Where file `i` starts; past the last file, where the stream ends. */
  function StartOf(l: Layout, i: nat): nat
    requires |l.starts| == |l.blobs|
  {
    if i < |l.starts| then l.starts[i] else l.total
  }

  /** A file's part in the gap brings the bytes read up to its end. */
  lemma FilePart(env: Env, l: Layout, gap: Range, i: nat)
    requires ValidLayout(env, l) && i < |l.blobs|
    requires gap.lo < gap.hi <= l.total && l.starts[i] < gap.hi
    ensures var stream, start, size := Stream(env, l.blobs), l.starts[i], l.sizes[i];
      && |stream| == l.total
      && |env.blob(l.blobs[i].oid)| == size
      && var a, b := Clamp(start, gap), Clamp(StartOf(l, i + 1), gap);
      && a <= b
      && if size > 0 && start + size > gap.lo
         then a - start <= b - start <= size && start <= a
           && stream[a..b] == env.blob(l.blobs[i].oid)[a - start..b - start]
         else a == b
  {
    StartsNext(env, l, i);
    FileSlice(env, l, i);
    var stream, start, size := Stream(env, l.blobs), l.starts[i], l.sizes[i];
    if size > 0 && start + size > gap.lo {
      var a, b := Clamp(start, gap), Clamp(StartOf(l, i + 1), gap);
      hide ValidLayout, Stream;
      SliceSlice(stream, start, start + size, a - start, b - start);
    }
  }

  /** Read exactly the gap's bytes from the blobs it touches. */
  method ReadGap(env: Env, l: Layout, gap: Range) returns (r: Bytes)
    requires ValidLayout(env, l) && gap.lo < gap.hi <= l.total
    ensures gap.hi <= |Stream(env, l.blobs)| && r == Stream(env, l.blobs)[gap.lo..gap.hi]
  {
    hide *;
    LayoutShape(env, l);
    GapBegins(env, l, gap);
    var p := PartitionPoint(l.starts, gap.lo);
    var idx: nat := if p > 0 then p - 1 else 0;
    r := [];
    while idx < |l.blobs| && l.starts[idx] < gap.hi
      invariant idx <= |l.blobs| && r == GapBefore(env, l, gap, idx)
    {
      GapStep(env, l, gap, idx);
      var start, size := l.starts[idx], l.sizes[idx];
      if size > 0 && start + size > gap.lo {
        var lo := (if gap.lo > start then gap.lo else start) - start;
        var hi := (if gap.hi < start + size then gap.hi else start + size) - start;
        r := r + env.blob(l.blobs[idx].oid)[lo..hi];
      }
      idx := idx + 1;
    }
    GapEnds(env, l, gap, idx);
  }

  /** The gap's bytes in the files before file `i`. */
  ghost function GapBefore(env: Env, l: Layout, gap: Range, i: nat): Bytes
    requires ValidLayout(env, l) && gap.lo < gap.hi <= l.total
  {
    LayoutShape(env, l);
    Stream(env, l.blobs)[gap.lo..Clamp(StartOf(l, i), gap)]
  }

  /** The first file read is the one the gap starts in. */
  lemma GapBegins(env: Env, l: Layout, gap: Range)
    requires ValidLayout(env, l) && gap.lo < gap.hi <= l.total
    ensures var p := PartitionPoint(l.starts, gap.lo);
      0 < p <= |l.blobs| && GapBefore(env, l, gap, p - 1) == []
  {
    LayoutShape(env, l);
  }

  lemma GapStep(env: Env, l: Layout, gap: Range, i: nat)
    requires ValidLayout(env, l) && i < |l.blobs|
    requires gap.lo < gap.hi <= l.total && l.starts[i] < gap.hi
    ensures var blob, start, size := env.blob(l.blobs[i].oid), l.starts[i], l.sizes[i];
      if size > 0 && start + size > gap.lo then
        var lo := (if gap.lo > start then gap.lo else start) - start;
        var hi := (if gap.hi < start + size then gap.hi else start + size) - start;
        lo <= hi <= |blob| && GapBefore(env, l, gap, i + 1) == GapBefore(env, l, gap, i) + blob[lo..hi]
      else
        GapBefore(env, l, gap, i + 1) == GapBefore(env, l, gap, i)
  {
    hide *;
    LayoutShape(env, l);
    FilePart(env, l, gap, i);
    StartAndClamp(l, gap, i);
    BeforeIs(env, l, gap, i);
    BeforeIs(env, l, gap, i + 1);
    var stream, start, size := Stream(env, l.blobs), l.starts[i], l.sizes[i];
    if size > 0 && start + size > gap.lo {
      PartEnds(env, l, gap, i);
      var a: nat, b: nat := Clamp(StartOf(l, i), gap), Clamp(StartOf(l, i + 1), gap);
      SliceThen(stream, gap.lo, a, b);
    }
  }

  lemma BeforeIs(env: Env, l: Layout, gap: Range, i: nat)
    requires ValidLayout(env, l) && gap.lo < gap.hi <= l.total && |l.starts| == |l.blobs|
    ensures gap.lo <= Clamp(StartOf(l, i), gap) <= |Stream(env, l.blobs)|
    ensures GapBefore(env, l, gap, i) == Stream(env, l.blobs)[gap.lo..Clamp(StartOf(l, i), gap)]
  {
    LayoutShape(env, l);
    hide Stream;
  }

  lemma StartAndClamp(l: Layout, gap: Range, i: nat)
    requires |l.starts| == |l.blobs| && i < |l.blobs| && gap.lo < gap.hi <= l.total
    ensures StartOf(l, i) == l.starts[i]
    ensures gap.lo <= Clamp(StartOf(l, i), gap) <= gap.hi && gap.lo <= Clamp(StartOf(l, i + 1), gap) <= gap.hi
  {}

  lemma GapEnds(env: Env, l: Layout, gap: Range, i: nat)
    requires ValidLayout(env, l) && i <= |l.blobs| && gap.lo < gap.hi <= l.total
    requires i < |l.blobs| ==> gap.hi <= l.starts[i]
    ensures gap.hi <= |Stream(env, l.blobs)| && GapBefore(env, l, gap, i) == Stream(env, l.blobs)[gap.lo..gap.hi]
  {
    LayoutShape(env, l);
    hide Stream;
  }

  lemma LayoutShape(env: Env, l: Layout)
    requires ValidLayout(env, l)
    ensures |l.starts| == |l.sizes| == |l.blobs|
    ensures l.total == |Stream(env, l.blobs)|
    ensures l.blobs != [] ==> l.starts[0] == 0
    ensures l.blobs == [] ==> l.total == 0
  {
    TotalIsLength(env, l);
  }

  lemma PartEnds(env: Env, l: Layout, gap: Range, i: nat)
    requires ValidLayout(env, l) && i < |l.blobs| && l.starts[i] < gap.hi && gap.hi <= l.total
    requires l.sizes[i] > 0 && l.starts[i] + l.sizes[i] > gap.lo && gap.lo < gap.hi
    ensures Clamp(l.starts[i], gap) == if gap.lo > l.starts[i] then gap.lo else l.starts[i]
    ensures Clamp(StartOf(l, i + 1), gap) == if gap.hi < l.starts[i] + l.sizes[i] then gap.hi
      else l.starts[i] + l.sizes[i]
  {
    StartsNext(env, l, i);
  }

  /** A new frame and its range of the stream. */
  datatype Item = Item(range: Range, frame: BuiltFrame)

  /** The gaps once the first is read up to `hi`. */
  ghost function Eat(gaps: seq<Range>, hi: nat): seq<Range>
    requires gaps != []
  {
    if hi == gaps[0].hi then gaps[1..] else [Range(hi, gaps[0].hi)] + gaps[1..]
  }

  /** The items, in order and end to end, take up `gaps` down to `rest`. */
  ghost predicate Fills(items: seq<Item>, gaps: seq<Range>, rest: seq<Range>) {
    if items == [] then gaps == rest else
      && gaps != []
      && items[0].range.lo == gaps[0].lo < items[0].range.hi <= gaps[0].hi
      && Fills(items[1..], Eat(gaps, items[0].range.hi), rest)
  }

  lemma {:induction false} FillsThen(a: seq<Item>, b: seq<Item>, gaps: seq<Range>, mid: seq<Range>, rest: seq<Range>)
    requires Fills(a, gaps, mid) && Fills(b, mid, rest)
    ensures Fills(a + b, gaps, rest)
  {
    hide Eat;
    if a == [] {
      assert a + b == b;
    } else {
      FillsThen(a[1..], b, Eat(gaps, a[0].range.hi), mid, rest);
      assert (a + b)[1..] == a[1..] + b;
    }
  }

  lemma {:induction false} FillsBefore(items: seq<Item>, gaps: seq<Range>, rest: seq<Range>, more: seq<Range>)
    requires Fills(items, gaps, rest)
    ensures Fills(items, gaps + more, rest + more)
  {
    if items != [] {
      FillsBefore(items[1..], Eat(gaps, items[0].range.hi), rest, more);
      assert Eat(gaps + more, items[0].range.hi) == Eat(gaps, items[0].range.hi) + more;
    }
  }

  /** Each new frame is right and holds its range of the stream. */
  ghost predicate ItemOk(env: Env, base: Option<BaseIndex>, stream: Bytes, item: Item) {
    && item.range.lo <= item.range.hi <= |stream|
    && Genuine(env, base, item.frame)
    && Raw(env, item.frame.frame) == stream[item.range.lo..item.range.hi]
  }

  ghost predicate ItemsOk(env: Env, base: Option<BaseIndex>, stream: Bytes, items: seq<Item>) {
    forall i :: 0 <= i < |items| ==> ItemOk(env, base, stream, items[i])
  }

  /** What is left of one gap from `pos` on. */
  ghost function Left(gap: Range, pos: nat): seq<Range> {
    if pos == gap.hi then [] else [Range(pos, gap.hi)]
  }

  lemma FillsNext(items: seq<Item>, gap: Range, pos: nat, item: Item)
    requires Fills(items, [gap], Left(gap, pos))
    requires item.range.lo == pos < item.range.hi <= gap.hi
    ensures Fills(items + [item], [gap], Left(gap, item.range.hi))
  {
    assert Fills([item], Left(gap, pos), Left(gap, item.range.hi)) by {
      assert [item][1..] == [];
      assert Eat(Left(gap, pos), item.range.hi) == Left(gap, item.range.hi);
    }
    FillsThen(items, [item], [gap], Left(gap, pos), Left(gap, item.range.hi));
  }

  /** Cut one gap into frames. */
  method CutGap(env: Env, l: Layout, gap: Range, base: Option<BaseIndex>) returns (r: Result<seq<Item>>)
    requires Lawful(env) && BaseOk(env, base)
    requires ValidLayout(env, l) && StreamKnown(env, Stream(env, l.blobs)) && gap.lo < gap.hi <= l.total
    ensures r.Ok? && Fills(r.value, [gap], []) && ItemsOk(env, base, Stream(env, l.blobs), r.value)
  {
    hide ValidLayout, Stream, Lawful, BaseOk, Fills, ItemOk, StreamKnown, BuildFrame, Sum, ByRawOk;
    var buffer := ReadGap(env, l, gap);
    if |buffer| != gap.hi - gap.lo {
      return Err(GapLength);
    }
    var lens := env.cut(buffer);
    CutParts(env, buffer);
    var items: seq<Item>, at: nat := [], 0;
    FillsStart(gap);
    for i := 0 to |lens|
      invariant at == Sum(lens[..i]) <= |buffer|
      invariant Fills(items, [gap], Left(gap, gap.lo + at))
      invariant ItemsOk(env, base, Stream(env, l.blobs), items)
    {
      SumNext(lens, i);
      SumMonotone(lens, i + 1, |lens|);
      var start, len := gap.lo + at, lens[i];
      BaseByRaw(env, base);
      var frame := BuildFrame(env, buffer[at..at + len], base);
      var item := Item(Range(start, start + len), frame);
      ItemReady(env, base, Stream(env, l.blobs), gap, at, len);
      FillsNext(items, gap, start, item);
      items := items + [item];
      at := at + len;
    }
    assert lens[..|lens|] == lens;
    return Ok(items);
  }

  lemma FillsStart(gap: Range)
    requires gap.lo < gap.hi
    ensures Fills([], [gap], Left(gap, gap.lo))
    ensures Sum([]) == 0
  {}

  lemma CutParts(env: Env, s: Bytes)
    requires Lawful(env)
    ensures Sum(env.cut(s)) == |s|
    ensures forall i :: 0 <= i < |env.cut(s)| ==> env.cut(s)[i] > 0
  {}

  lemma BaseByRaw(env: Env, base: Option<BaseIndex>)
    requires BaseOk(env, base)
    ensures base.Some? ==> ByRawOk(base.value.byRaw, base.value.frames)
  {}

  lemma SliceReady(env: Env, base: Option<BaseIndex>, stream: Bytes, lo: nat, hi: nat)
    requires Lawful(env) && BaseOk(env, base) && StreamKnown(env, stream) && lo <= hi <= |stream|
    requires base.Some? ==> ByRawOk(base.value.byRaw, base.value.frames)
    ensures ItemOk(env, base, stream, Item(Range(lo, hi), BuildFrame(env, stream[lo..hi], base)))
  {
    assert stream[lo..hi] in env.known && ZipFrame(env, stream[lo..hi]) in env.known;
    BuildFrameGenuine(env, stream[lo..hi], base);
    hide *;
  }

  lemma ItemReady(env: Env, base: Option<BaseIndex>, stream: Bytes, gap: Range, at: nat, len: nat)
    requires Lawful(env) && BaseOk(env, base) && StreamKnown(env, stream)
    requires gap.lo <= gap.hi <= |stream| && at + len <= gap.hi - gap.lo
    requires base.Some? ==> ByRawOk(base.value.byRaw, base.value.frames)
    ensures var buffer := stream[gap.lo..gap.hi];
      var start := gap.lo + at;
      ItemOk(env, base, stream, Item(Range(start, start + len), BuildFrame(env, buffer[at..at + len], base)))
  {
    hide *;
    SliceSlice(stream, gap.lo, gap.hi, at, at + len);
    SliceReady(env, base, stream, gap.lo + at, gap.lo + at + len);
  }

  /** Cut the gaps of a batch. The gap-length check never fails. */
  method CutGaps(env: Env, l: Layout, gaps: seq<Range>, base: Option<BaseIndex>) returns (r: Result<seq<Item>>)
    requires Lawful(env) && BaseOk(env, base)
    requires ValidLayout(env, l) && StreamKnown(env, Stream(env, l.blobs))
    requires forall g :: 0 <= g < |gaps| ==> gaps[g].lo < gaps[g].hi <= l.total
    ensures r.Ok? && Fills(r.value, gaps, []) && ItemsOk(env, base, Stream(env, l.blobs), r.value)
  {
    hide ValidLayout, Stream, Lawful, BaseOk, Fills, ItemOk, StreamKnown;
    var items: seq<Item> := [];
    FillsNothing(gaps);
    for g := 0 to |gaps|
      invariant Fills(items, gaps, gaps[g..])
      invariant ItemsOk(env, base, Stream(env, l.blobs), items)
    {
      var cut := CutGap(env, l, gaps[g], base);
      if cut.Err? {
        return cut;
      }
      FillsBefore(cut.value, [gaps[g]], [], gaps[g + 1..]);
      assert [gaps[g]] + gaps[g + 1..] == gaps[g..] && [] + gaps[g + 1..] == gaps[g + 1..];
      FillsThen(items, cut.value, gaps, gaps[g..], gaps[g + 1..]);
      items := items + cut.value;
    }
    assert gaps[|gaps|..] == [];
    return Ok(items);
  }

  lemma FillsNothing(gaps: seq<Range>)
    ensures Fills([], gaps, gaps[0..])
  {}

  /** `rem` is what is still to be read: the gaps after `pos` between the kept
      frames from the `m`th on. */
  ghost predicate Merging(kept: seq<Kept>, m: nat, pos: nat, rem: seq<Range>, total: nat) {
    && m <= |kept| && pos <= total
    && rem == GapsOf(kept, m, pos, total)
    && (m < |kept| ==> pos <= kept[m].lo)
  }

  ghost predicate InOrder(kept: seq<Kept>, total: nat) {
    && (forall i :: 0 <= i < |kept| ==> kept[i].lo < kept[i].hi <= total)
    && (forall i, j :: 0 <= i < j < |kept| && j == i + 1 ==> kept[i].hi <= kept[j].lo)
  }

  lemma {:induction false} GapsAfter(kept: seq<Kept>, m: nat, pos: nat, total: nat)
    requires InOrder(kept, total) && m <= |kept| && (m < |kept| ==> pos <= kept[m].lo)
    ensures var gaps := GapsOf(kept, m, pos, total);
      gaps != [] ==> pos <= gaps[0].lo < gaps[0].hi <= total
    decreases |kept| - m
  {
    if m < |kept| {
      GapsAfter(kept, m + 1, kept[m].hi, total);
    }
  }

  /** A kept frame before the next gap is next in the stream. */
  lemma KeptIsNext(kept: seq<Kept>, m: nat, pos: nat, rem: seq<Range>, total: nat)
    requires InOrder(kept, total) && Merging(kept, m, pos, rem, total)
    requires m < |kept| && (rem == [] || kept[m].lo < rem[0].lo)
    ensures pos == kept[m].lo < kept[m].hi && Merging(kept, m + 1, kept[m].hi, rem, total)
  {
    assert pos == kept[m].lo;
  }

  /** Once no kept frame comes first, the next gap or the end is. */
  lemma GapIsNext(kept: seq<Kept>, m: nat, pos: nat, rem: seq<Range>, total: nat)
    requires InOrder(kept, total) && Merging(kept, m, pos, rem, total)
    requires m == |kept| || (rem != [] && rem[0].lo <= kept[m].lo)
    ensures pos == if rem == [] then total else rem[0].lo
  {
    GapsAfter(kept, m, pos, total);
    if m < |kept| {
      GapsAfter(kept, m + 1, kept[m].hi, total);
    }
  }

  /** A new frame at the start of the next gap leaves the rest of it. */
  lemma ItemIsNext(kept: seq<Kept>, m: nat, pos: nat, rem: seq<Range>, total: nat, hi: nat)
    requires InOrder(kept, total) && Merging(kept, m, pos, rem, total)
    requires rem != [] && rem[0].lo == pos < hi <= rem[0].hi
    ensures Merging(kept, m, hi, Eat(rem, hi), total)
  {
    GapsAfter(kept, m, pos, total);
    if m < |kept| {
      GapsAfter(kept, m + 1, kept[m].hi, total);
      assert pos < kept[m].lo;
      assert rem == [Range(pos, kept[m].lo)] + GapsOf(kept, m + 1, kept[m].hi, total);
      assert rem[1..] == GapsOf(kept, m + 1, kept[m].hi, total);
    } else {
      assert rem == [Range(pos, total)];
    }
  }

  /** The base frames of the first `m` kept. */
  ghost function Picked(ix: BaseIndex, kept: seq<Kept>, m: nat): seq<ArchiveFrame>
    requires m <= |kept|
    requires forall i :: 0 <= i < |kept| ==> kept[i].frame < |ix.frames|
  {
    if m == 0 then [] else Picked(ix, kept, m - 1) + [ix.frames[kept[m - 1].frame]]
  }

  ghost predicate KeptPlan(env: Env, kept: seq<Kept>, ix: BaseIndex, stream: Bytes) {
    && AllHeld(env, kept, ix, stream) && InOrder(kept, |stream|)
    && (forall i :: 0 <= i < |kept| ==> kept[i].frame < |ix.frames|)
  }

  /** The bundler's state in the middle of a merge. */
  ghost predicate At(b: Bundler, ix: BaseIndex, stream: Bytes, bounds: Bounds, fs: seq<ArchiveFrame>, pos: nat)
    reads b
  {
    && b.base == Some(ix) && Received(b, fs) && Emitted(b.env, stream, bounds, fs, pos)
    && NonEmpty(bounds)
  }

  ghost predicate NonEmpty(bounds: Bounds) {
    forall k :: 0 <= k < |bounds| ==> bounds[k].lo < bounds[k].hi
  }

  function KeptFrame(ix: BaseIndex, k: Kept): BuiltFrame
    requires k.frame < |ix.frames|
  {
    BuiltFrame(ix.frames[k.frame], None, Some(k.frame))
  }

  lemma KeptReady(b: Bundler, ix: BaseIndex, stream: Bytes, bounds: Bounds, fs: seq<ArchiveFrame>, pos: nat,
                  kept: seq<Kept>, m: nat)
    requires At(b, ix, stream, bounds, fs, pos) && KeptPlan(b.env, kept, ix, stream) && m < |kept|
    ensures Genuine(b.env, b.base, KeptFrame(ix, kept[m]))
    ensures kept[m].lo <= kept[m].hi <= |stream|
    ensures Raw(b.env, KeptFrame(ix, kept[m]).frame) == stream[kept[m].lo..kept[m].hi]
  {
    hide OutOk, GroupOk, Lawful, StoresKnown, BundlesOk, ByRawOk, Emitted, Made, InOrder;
    assert KeptHeld(b.env, kept[m], ix, stream);
    assert FrameOk(b.env, ix.frames[kept[m].frame]);
  }

  /** Hand on the kept frames that start before `end`. */
  method EmitKept(b: Bundler, ix: BaseIndex, kept: seq<Kept>, m0: nat, end: nat, bounds0: Bounds,
                  ghost stream: Bytes, ghost fs0: seq<ArchiveFrame>, ghost pos0: nat, ghost rem: seq<Range>)
    returns (r: Result<Bounds>, m: nat, ghost fs: seq<ArchiveFrame>, ghost pos: nat)
    requires At(b, ix, stream, bounds0, fs0, pos0) && KeptPlan(b.env, kept, ix, stream)
    requires Merging(kept, m0, pos0, rem, |stream|)
    requires if rem == [] then forall i :: 0 <= i < |kept| ==> kept[i].lo < end else end == rem[0].lo
    requires m0 <= |kept|
    modifies b
    ensures r.Ok? ==> At(b, ix, stream, r.value, fs, pos) && Merging(kept, m, pos, rem, |stream|)
    ensures r.Ok? ==> pos == if rem == [] then |stream| else rem[0].lo
    ensures r.Ok? ==> m0 <= m <= |kept| && (rem == [] ==> m == |kept|)
    ensures r.Ok? && fs0 == Picked(ix, kept, m0) ==> fs == Picked(ix, kept, m)
    ensures r.Ok? ==> b.made == old(b.made)
    ensures r.Err? ==> r.error in {Limit, Unreadable}
  {
    hide Received, Emitted, Genuine, Raw, GapsOf, AllHeld, InOrder, Merging;
    r, m, fs, pos := Ok(bounds0), m0, fs0, pos0;
    while m < |kept| && kept[m].lo < end
      invariant r.Ok? && m0 <= m <= |kept|
      invariant At(b, ix, stream, r.value, fs, pos) && Merging(kept, m, pos, rem, |stream|)
      invariant fs0 == Picked(ix, kept, m0) ==> fs == Picked(ix, kept, m)
      invariant b.made == old(b.made)
    {
      KeptIsNext(kept, m, pos, rem, |stream|);
      KeptReady(b, ix, stream, r.value, fs, pos, kept, m);
      var frame := KeptFrame(ix, kept[m]);
      r := Emit(b, frame, r.value, kept[m].lo, kept[m].hi, stream, fs);
      if r.Err? {
        return;
      }
      fs := fs + [frame.frame];
      pos := kept[m].hi;
      m := m + 1;
    }
    GapIsNext(kept, m, pos, rem, |stream|);
  }

  /** Merge new frames, which take up `rem` down to `rest`, with the kept ones. */
  method EmitItems(b: Bundler, ix: BaseIndex, kept: seq<Kept>, m0: nat, items: seq<Item>, bounds0: Bounds,
                   ghost stream: Bytes, ghost fs0: seq<ArchiveFrame>, ghost pos0: nat, ghost rem0: seq<Range>,
                     ghost rest: seq<Range>)
    returns (r: Result<Bounds>, m: nat, ghost fs: seq<ArchiveFrame>, ghost pos: nat)
    requires At(b, ix, stream, bounds0, fs0, pos0) && KeptPlan(b.env, kept, ix, stream)
    requires Merging(kept, m0, pos0, rem0, |stream|) && m0 <= |kept|
    requires Fills(items, rem0, rest) && ItemsOk(b.env, b.base, stream, items)
    modifies b
    ensures r.Ok? ==> At(b, ix, stream, r.value, fs, pos) && Merging(kept, m, pos, rest, |stream|) && m <= |kept|
    ensures r.Err? ==> r.error in {Limit, Unreadable}
  {
    hide Received, Emitted, Genuine, Raw, GapsOf, KeptPlan, Merging, Picked, Eat;
    r, m, fs, pos := Ok(bounds0), m0, fs0, pos0;
    ghost var rem := rem0;
    for i := 0 to |items|
      invariant r.Ok? && m <= |kept|
      invariant At(b, ix, stream, r.value, fs, pos) && Merging(kept, m, pos, rem, |stream|)
      invariant Fills(items[i..], rem, rest)
    {
      var item := items[i];
      FillsHead(items, i, rem, rest);
      r, m, fs, pos := EmitKept(b, ix, kept, m, item.range.lo, r.value, stream, fs, pos, rem);
      if r.Err? {
        return;
      }
      r := Emit(b, item.frame, r.value, item.range.lo, item.range.hi, stream, fs);
      if r.Err? {
        return;
      }
      PlanInOrder(b.env, kept, ix, stream);
      ItemIsNext(kept, m, pos, rem, |stream|, item.range.hi);
      fs, pos, rem := fs + [item.frame.frame], item.range.hi, Eat(rem, item.range.hi);
    }
    assert items[|items|..] == [];
  }

  lemma PlanInOrder(env: Env, kept: seq<Kept>, ix: BaseIndex, stream: Bytes)
    requires KeptPlan(env, kept, ix, stream)
    ensures InOrder(kept, |stream|)
    ensures forall i :: 0 <= i < |kept| ==> kept[i].frame < |ix.frames|
  {}

  lemma FillsHead(items: seq<Item>, i: nat, rem: seq<Range>, rest: seq<Range>)
    requires i < |items| && Fills(items[i..], rem, rest)
    ensures rem != [] && items[i].range.lo == rem[0].lo < items[i].range.hi <= rem[0].hi
    ensures Fills(items[i + 1..], Eat(rem, items[i].range.hi), rest)
  {
    assert items[i..][1..] == items[i + 1..];
  }

  /** The frames' ranges cover the stream end to end. */
  method CheckTiled(bounds: Bounds, total: nat) returns (ok: bool)
    ensures ok <==>
      && bounds != [] && bounds[0].lo == 0 && bounds[|bounds| - 1].hi == total
      && forall j, k :: 0 <= j < k < |bounds| && k == j + 1 ==> bounds[j].hi == bounds[k].lo
  {
    if |bounds| == 0 || bounds[0].lo != 0 || bounds[|bounds| - 1].hi != total {
      return false;
    }
    for i := 1 to |bounds|
      invariant forall j, k :: 0 <= j < k < i && k == j + 1 ==> bounds[j].hi == bounds[k].lo
    {
      if bounds[i - 1].hi != bounds[i].lo {
        return false;
      }
    }
    return true;
  }

  /** How many of the gaps go into one batch. */
  method BatchSize(gaps: seq<Range>) returns (n: nat, bytes: nat)
    requires gaps != [] && forall i :: 0 <= i < |gaps| ==> gaps[i].lo <= gaps[i].hi
    ensures 0 < n <= |gaps| && bytes == GapBytes(gaps[..n])
  {
    n, bytes := 0, 0;
    while n < |gaps| && (n == 0 || bytes + (gaps[n].hi - gaps[n].lo) <= MAX_GAP_BYTES)
      invariant n <= |gaps| && bytes == GapBytes(gaps[..n])
      decreases |gaps| - n
    {
      assert gaps[..n + 1][..n] == gaps[..n];
      bytes := bytes + (gaps[n].hi - gaps[n].lo);
      n := n + 1;
    }
  }

  lemma {:induction false} GapBytesAppend(a: seq<Range>, b: seq<Range>)
    ensures GapBytes(a + b) == GapBytes(a) + GapBytes(b)
  {
    if b == [] {
      assert a + b == a;
    } else {
      GapBytesAppend(a, b[..|b| - 1]);
      assert (a + b)[..|a + b| - 1] == a + b[..|b| - 1];
    }
  }

  /** The plan's frames hold the output, which is the new stream in the gaps. */
  lemma PlanStart(env: Env, plan: Plan, ix: BaseIndex, claimed: Bytes, stream: Bytes, min: nat)
    requires FramesIndexed(env, ix) && PlanOk(plan, ix, claimed, stream, min)
    ensures var out := Output(env, plan.reused, ix, stream);
      && |out| == |stream| > 0 && KeptPlan(env, plan.reused, ix, out) && Agree(out, stream, plan.gaps)
    ensures forall i :: 0 <= i < |plan.reused| ==> plan.reused[i].frame < |ix.frames| && plan.reused[i].lo < |stream|
    ensures Merging(plan.reused, 0, 0, plan.gaps, |stream|)
    ensures forall i :: 0 <= i < |plan.gaps| ==> plan.gaps[i].lo < plan.gaps[i].hi <= |stream|
  {
    hide FramesIndexed, Output, KeptHeld;
    assert forall i :: 0 <= i < |plan.reused| ==> KeptOk(plan.reused[i], ix, claimed, stream);
    GapsInside(plan.reused, 0, 0, |stream|);
    OutputCount(env, plan.reused, ix, stream);
    OutputHeld(env, plan.reused, ix, claimed, stream, min);
    OutputAgrees(env, plan, ix, claimed, stream, min);
  }

  /** Frames cut from gaps hold the output there too. */
  lemma {:induction false} ItemsAgree(env: Env, base: Option<BaseIndex>, items: seq<Item>, gaps: seq<Range>,
                                      rest: seq<Range>, out: Bytes, stream: Bytes)
    requires Fills(items, gaps, rest) && Agree(out, stream, gaps) && ItemsOk(env, base, stream, items)
    ensures ItemsOk(env, base, out, items)
  {
    hide ItemOk, Agree, Eat;
    if items != [] {
      EatAgrees(gaps, items[0].range.hi, out, stream);
      assert forall i :: 0 <= i < |items[1..]| ==> items[1..][i] == items[i + 1];
      ItemsAgree(env, base, items[1..], Eat(gaps, items[0].range.hi), rest, out, stream);
      ItemAgrees(env, base, items[0], gaps, out, stream);
      assert forall i :: 0 < i < |items| ==> items[i] == items[1..][i - 1];
    }
  }

  lemma ItemAgrees(env: Env, base: Option<BaseIndex>, item: Item, gaps: seq<Range>, out: Bytes, stream: Bytes)
    requires gaps != [] && gaps[0].lo == item.range.lo < item.range.hi <= gaps[0].hi
    requires Agree(out, stream, gaps) && ItemOk(env, base, stream, item)
    ensures ItemOk(env, base, out, item)
  {
    hide Genuine, Raw;
    var gap := gaps[0];
    SliceSlice(out, gap.lo, gap.hi, 0, item.range.hi - gap.lo);
    SliceSlice(stream, gap.lo, gap.hi, 0, item.range.hi - gap.lo);
  }

  lemma EatAgrees(gaps: seq<Range>, hi: nat, out: Bytes, stream: Bytes)
    requires gaps != [] && gaps[0].lo < hi <= gaps[0].hi && Agree(out, stream, gaps)
    ensures Agree(out, stream, Eat(gaps, hi))
  {
    var gap := gaps[0];
    SliceSlice(out, gap.lo, gap.hi, hi - gap.lo, gap.hi - gap.lo);
    SliceSlice(stream, gap.lo, gap.hi, hi - gap.lo, gap.hi - gap.lo);
  }

  lemma AgreePrefix(a: Bytes, b: Bytes, gaps: seq<Range>, n: nat)
    requires Agree(a, b, gaps) && n <= |gaps|
    ensures Agree(a, b, gaps[..n]) && Agree(a, b, gaps[n..])
  {}

  lemma {:induction false} GapsInside(kept: seq<Kept>, m: nat, pos: nat, total: nat)
    requires m <= |kept| && forall i :: 0 <= i < |kept| ==> kept[i].lo < kept[i].hi <= total
    ensures forall i :: 0 <= i < |GapsOf(kept, m, pos, total)| ==> GapsOf(kept, m, pos, total)[i].hi <= total
    decreases |kept| - m
  {
    if m < |kept| {
      GapsInside(kept, m + 1, kept[m].hi, total);
    }
  }

  /** The frames of the first `n` gaps take up all gaps down to the others. */
  lemma BatchItems(env: Env, base: Option<BaseIndex>, items: seq<Item>, rest: seq<Range>, n: nat, out: Bytes,
                   stream: Bytes)
    requires n <= |rest| && Agree(out, stream, rest)
    requires Fills(items, rest[..n], []) && ItemsOk(env, base, stream, items)
    ensures Fills(items, rest, rest[n..]) && ItemsOk(env, base, out, items) && Agree(out, stream, rest[n..])
  {
    hide *;
    AgreePrefix(out, stream, rest, n);
    ItemsAgree(env, base, items, rest[..n], [], out, stream);
    FillsBefore(items, rest[..n], [], rest[n..]);
    assert rest[..n] + rest[n..] == rest && [] + rest[n..] == rest[n..];
  }

  /** Read, cut and merge one batch of the gaps `rest`. */
  method EmitBatch(env: Env, l: Layout, ix: BaseIndex, b: Bundler, kept: seq<Kept>, m0: nat, rest: seq<Range>,
                   bounds0: Bounds, ghost out: Bytes, ghost fs0: seq<ArchiveFrame>, ghost pos0: nat)
    returns (r: Result<Bounds>, m: nat, count: nat, bytes: nat, ghost fs: seq<ArchiveFrame>, ghost pos: nat)
    requires ValidLayout(env, l) && StreamKnown(env, Stream(env, l.blobs)) && Agree(out, Stream(env, l.blobs), rest)
    requires b.env == env && At(b, ix, out, bounds0, fs0, pos0)
    requires KeptPlan(env, kept, ix, out) && m0 <= |kept| && Merging(kept, m0, pos0, rest, |out|)
    requires rest != [] && forall i :: 0 <= i < |rest| ==> rest[i].lo < rest[i].hi <= l.total
    modifies b
    ensures 0 < count <= |rest| && bytes == GapBytes(rest[..count])
    ensures r.Ok? ==> At(b, ix, out, r.value, fs, pos) && Agree(out, Stream(env, l.blobs), rest[count..])
    ensures r.Ok? ==> m <= |kept| && Merging(kept, m, pos, rest[count..], |out|)
    ensures r.Err? ==> r.error in {Limit, Unreadable}
  {
    hide *;
    count, bytes := BatchSize(rest);
    var batch := rest[..count];
    AtBundler(b, ix, out, bounds0, fs0, pos0);
    var items := CutGaps(env, l, batch, Some(ix));
    BatchItems(env, Some(ix), items.value, rest, count, out, Stream(env, l.blobs));
    r, m, fs, pos := EmitItems(b, ix, kept, m0, items.value, bounds0, out, fs0, pos0, rest, rest[count..]);
  }

  /** Read, cut and merge the gaps in batches. */
  method EmitGaps(env: Env, l: Layout, plan: Plan, ix: BaseIndex, b: Bundler, ghost claimed: Bytes, ghost out: Bytes,
                  ghost min: nat)
    returns (r: Result<(Bounds, nat)>, m: nat, ghost fs: seq<ArchiveFrame>, ghost pos: nat)
    requires ValidLayout(env, l) && StreamKnown(env, Stream(env, l.blobs))
    requires FramesIndexed(env, ix) && PlanOk(plan, ix, claimed, Stream(env, l.blobs), min)
    requires out == Output(env, plan.reused, ix, Stream(env, l.blobs))
    requires b.env == env && At(b, ix, out, [], [], 0)
    modifies b
    ensures r.Ok? ==> At(b, ix, out, r.value.0, fs, pos)
    ensures r.Ok? ==> m <= |plan.reused| && Merging(plan.reused, m, pos, [], |out|)
    ensures r.Ok? ==> r.value.1 == GapBytes(plan.gaps)
    ensures plan.gaps == [] ==> r.Ok? && m == 0 && fs == [] && b.made == old(b.made)
    ensures r.Err? ==> r.error in {Limit, Unreadable}
  {
    hide *;
    ghost var stream := Stream(env, l.blobs);
    LayoutShape(env, l);
    PlanStart(env, plan, ix, claimed, stream, min);
    NoGapBytes();
    fs, pos, m := [], 0, 0;
    var bounds: Bounds, bytesRead: nat, rest := [], 0, plan.gaps;
    ghost var done: seq<Range> := [];
    while |rest| != 0
      invariant plan.gaps == done + rest && bytesRead == GapBytes(done) && Agree(out, stream, rest)
      invariant m <= |plan.reused|
      invariant At(b, ix, out, bounds, fs, pos) && Merging(plan.reused, m, pos, rest, |out|)
      invariant plan.gaps == [] ==> m == 0 && fs == [] && b.made == old(b.made)
      decreases |rest|
    {
      assert forall i :: 0 <= i < |rest| ==> rest[i] == plan.gaps[|done| + i];
      var emitted, count, bytes;
      emitted, m, count, bytes, fs, pos := EmitBatch(env, l, ix, b, plan.reused, m, rest, bounds, out, fs, pos);
      if emitted.Err? {
        r := Err(emitted.error);
        return;
      }
      GapBytesAppend(done, rest[..count]);
      bounds, rest, bytesRead, done := emitted.value, rest[count..], bytesRead + bytes, done + rest[..count];
    }
    assert done == plan.gaps;
    r := Ok((bounds, bytesRead));
  }

  /** Cut the gaps and emit every frame, kept or new, in stream order. The frames
      tile the output: the kept frames' bytes, and the new stream's in the gaps. A
      plan without gaps reads and compresses nothing and emits the kept frames. */
  method BuildGaps(env: Env, l: Layout, plan: Plan, ix: BaseIndex, b: Bundler, ghost claimed: Bytes, ghost min: nat)
    returns (r: Result<(Bounds, nat)>, ghost fs: seq<ArchiveFrame>)
    requires ValidLayout(env, l) && StreamKnown(env, Stream(env, l.blobs)) && FramesIndexed(env, ix)
    requires PlanOk(plan, ix, claimed, Stream(env, l.blobs), min) && l.total <= U64_MAX
    requires b.env == env && b.base == Some(ix) && Received(b, []) && b.made == 0
    modifies b
    ensures r.Ok? ==>
      Received(b, fs) && Emitted(env, Output(env, plan.reused, ix, Stream(env, l.blobs)), r.value.0, fs, l.total)
    ensures r.Ok? ==> r.value.0 != [] && NonEmpty(r.value.0) && r.value.1 == GapBytes(plan.gaps)
    ensures plan.gaps == [] && r.Ok? ==> b.made == 0
    ensures plan.gaps == [] && r.Ok? ==>
      (forall i :: 0 <= i < |plan.reused| ==> plan.reused[i].frame < |ix.frames|)
        && fs == Picked(ix, plan.reused, |plan.reused|)
    ensures r.Err? ==> r.error in {Limit, Unreadable}
  {
    hide *;
    ghost var stream := Stream(env, l.blobs);
    ghost var out := Output(env, plan.reused, ix, stream);
    LayoutShape(env, l);
    PlanStart(env, plan, ix, claimed, stream, min);
    AtStart(b, ix, out, plan.reused);
    ghost var pos: nat;
    var m, emitted, last;
    emitted, m, fs, pos := EmitGaps(env, l, plan, ix, b, claimed, out, min);
    if emitted.Err? {
      r := Err(emitted.error);
      return;
    }
    last, m, fs, pos := EmitKept(b, ix, plan.reused, m, U64_MAX, emitted.value.0, out, fs, pos, []);
    if last.Err? {
      r := Err(last.error);
      return;
    }
    TiledEnd(b, ix, out, last.value, fs);
    var tiled := CheckTiled(last.value, l.total);
    if !tiled {
      r := Err(NotTiled);
      return;
    }
    r := Ok((last.value, emitted.value.1));
  }

  lemma NoGapBytes()
    ensures GapBytes([]) == 0
  {}

  lemma AtStart(b: Bundler, ix: BaseIndex, stream: Bytes, kept: seq<Kept>)
    requires b.base == Some(ix) && Received(b, [])
    requires forall i :: 0 <= i < |kept| ==> kept[i].frame < |ix.frames|
    ensures At(b, ix, stream, [], [], 0) && Picked(ix, kept, 0) == []
  {}

  lemma AtBundler(b: Bundler, ix: BaseIndex, stream: Bytes, bounds: Bounds, fs: seq<ArchiveFrame>, pos: nat)
    requires At(b, ix, stream, bounds, fs, pos)
    ensures b.base == Some(ix) && Lawful(b.env) && BaseOk(b.env, b.base)
  {}

  lemma TiledEnd(b: Bundler, ix: BaseIndex, stream: Bytes, bounds: Bounds, fs: seq<ArchiveFrame>)
    requires At(b, ix, stream, bounds, fs, |stream|) && |stream| > 0
    ensures Received(b, fs) && Emitted(b.env, stream, bounds, fs, |stream|)
    ensures bounds != [] && bounds[0].lo == 0 && bounds[|bounds| - 1].hi == |stream| && NonEmpty(bounds)
    ensures forall j, k :: 0 <= j < k < |bounds| && k == j + 1 ==> bounds[j].hi == bounds[k].lo
  {
    hide Received;
  }
}
