/** Whole and incremental archive builds (rust/src/archive.rs, `build_into_cas`). */
module Builds {
  import opened Clonepack
  import opened Seqs
  import opened Fragments
  import opened Layouts
  import opened Grouping
  import opened Archives
  import opened BaseIndexes
  import opened Bundlers
  import opened Streams
  import opened Plans
  import opened Outputs
  import opened Gaps

  /** A build's archive, the bundles it wrote, and what it reused and read. */
  datatype Built = Built(archive: Archive, newBundles: seq<Digest>, reuse: Reuse, bytesRead: nat)

  /** No frame is empty, but for the one frame of a tree of only empty files. */
  ghost predicate Framed(env: Env, fs: seq<ArchiveFrame>, tree: seq<TreeFile>) {
    if Stream(env, tree) != []
    then forall k :: 0 <= k < |fs| ==> fs[k].rawLen > 0
    else |fs| == if tree == [] then 0 else 1
  }

  /** The entry stands for `file`, is as long as its blob and lies in the frames. */
  ghost predicate EntryFits(env: Env, entry: FileEntry, file: TreeFile, raws: seq<Bytes>) {
    && entry.path == file.path && entry.mode == file.mode && entry.blob == file.oid
    && entry.fragments != [] && Length(entry.fragments) == |env.blob(file.oid)|
    && forall i :: 0 <= i < |entry.fragments| ==> InFrame(entry.fragments[i], raws)
  }

  ghost predicate EntriesFit(env: Env, files: seq<FileEntry>, tree: seq<TreeFile>, raws: seq<Bytes>) {
    |files| == |tree| && forall i :: 0 <= i < |tree| ==> EntryFits(env, files[i], tree[i], raws)
  }

  /** An archive laid out for the tree: its files are end to end over as many bytes
      as the tree has, and its bundles are cut by the frames' hashes. The bytes need
      not be the tree's. */
  ghost predicate Laid(env: Env, a: Archive, tree: seq<TreeFile>, gitlinks: seq<Bytes>, target: nat) {
    && GroupedBy(env, a, Bundled(a.frames, MinLen(target), MaxLen(target)))
    && a.metadata.gitlinks == gitlinks
    && EntriesFit(env, a.metadata.files, tree, Raws(env, a.frames))
    && Packed(a.metadata.files, Raws(env, a.frames))
    && |Concat(Raws(env, a.frames))| == |Stream(env, tree)|
    && Framed(env, a.frames, tree)
  }

  /** What an exact build makes: exactly the tree, laid out. */
  ghost predicate PackedArchive(env: Env, a: Archive, tree: seq<TreeFile>, gitlinks: seq<Bytes>, target: nat) {
    && Laid(env, a, tree, gitlinks, target)
    && FilesHold(env, a.metadata.files, tree, Raws(env, a.frames))
  }

  /** A packed archive is sound, and its frames hold the tree's stream. */
  lemma PackedIsSound(env: Env, a: Archive, tree: seq<TreeFile>, gitlinks: seq<Bytes>, target: nat)
    requires PackedArchive(env, a, tree, gitlinks, target)
    ensures Sound(env, a, tree, gitlinks) && Concat(Raws(env, a.frames)) == Stream(env, tree)
  {
    hide GroupedBy, FilesHold, Packed, EntriesFit, Framed, Concat, Raws, MinLen, MaxLen;
    PackedRanges(env, a.metadata.files, tree, Raws(env, a.frames));
  }

  /** A file laid out over the tree's stream reads as its blob. */
  lemma LaidFile(env: Env, files: seq<FileEntry>, tree: seq<TreeFile>, raws: seq<Bytes>, i: nat)
    requires EntriesFit(env, files, tree, raws) && Packed(files, raws) && Concat(raws) == Stream(env, tree)
      && i < |tree|
    ensures FileHolds(env, files[i], tree[i], raws)
  {
    hide Concat, Sum, Length, Read, Spells, BoundsOf, FramesOf, InFrame;
    var frags, parts := files[i].fragments, Contents(env, tree);
    assert EntryFits(env, files[i], tree[i], raws);
    ReadLength(frags, raws);
    if Length(frags) > 0 {
      FitLengths(env, files, tree, raws);
      ConcatPart(parts, i);
      ConcatPrefixLength(parts, i);
      SomeFrames(raws);
      BoundsTile(raws);
      var start := Sum(FileLens(files)[..i]);
      SpelledBytes(frags, BoundsOf(raws), raws, Concat(raws), start, start + Length(frags));
    }
  }

  lemma FitLengths(env: Env, files: seq<FileEntry>, tree: seq<TreeFile>, raws: seq<Bytes>)
    requires EntriesFit(env, files, tree, raws)
    ensures FileLens(files) == Lengths(Contents(env, tree)) == BlobSizes(env, tree)
  {
    hide InFrame, Length;
    forall i | 0 <= i < |tree| ensures FileLens(files)[i] == Lengths(Contents(env, tree))[i] {
      assert EntryFits(env, files[i], tree[i], raws);
    }
  }

  /** An archive laid out for a tree is that tree exactly when its frames hold the
      tree's stream. */
  lemma LaidExact(env: Env, a: Archive, tree: seq<TreeFile>, gitlinks: seq<Bytes>, target: nat)
    requires Laid(env, a, tree, gitlinks, target)
    ensures Concat(Raws(env, a.frames)) == Stream(env, tree) <==> PackedArchive(env, a, tree, gitlinks, target)
    ensures Concat(Raws(env, a.frames)) == Stream(env, tree) <==> Sound(env, a, tree, gitlinks)
  {
    hide GroupedBy, Packed, EntriesFit, Framed, Concat, Raws, MinLen, MaxLen, FileHolds, Grouped;
    var files, raws := a.metadata.files, Raws(env, a.frames);
    if Concat(raws) == Stream(env, tree) {
      LaidCount(env, files, tree, raws);
      forall i | 0 <= i < |tree| ensures FileHolds(env, files[i], tree[i], raws) {
        LaidFile(env, files, tree, raws, i);
      }
      PackedIsSound(env, a, tree, gitlinks, target);
    }
    if FilesHold(env, files, tree, raws) {
      PackedRanges(env, files, tree, raws);
    }
  }

  lemma LaidCount(env: Env, files: seq<FileEntry>, tree: seq<TreeFile>, raws: seq<Bytes>)
    requires EntriesFit(env, files, tree, raws)
    ensures |files| == |tree|
  {}

  /** Frames that hold the stream at `bounds` are at their prefix lengths. */
  lemma {:induction false} BoundsAre(raws: seq<Bytes>, bounds: Bounds, stream: Bytes, k: nat)
    requires FramesOf(raws, bounds, stream) && k < |raws|
    ensures Concat(raws[..k + 1]) == stream[..bounds[k].hi]
    ensures |Concat(raws[..k])| == bounds[k].lo
  {
    ConcatSnoc(raws[..k], raws[k]);
    assert raws[..k] + [raws[k]] == raws[..k + 1];
    if k == 0 {
      assert raws[..0] == [];
    } else {
      BoundsAre(raws, bounds, stream, k - 1);
      assert bounds[k - 1].hi == bounds[k].lo;
    }
  }

  lemma FramesAreStream(raws: seq<Bytes>, bounds: Bounds, stream: Bytes)
    requires FramesOf(raws, bounds, stream)
    ensures Concat(raws) == stream && bounds == BoundsOf(raws)
  {
    forall k | 0 <= k < |raws| ensures bounds[k] == BoundsOf(raws)[k] {
      BoundsAre(raws, bounds, stream, k);
    }
    BoundsAre(raws, bounds, stream, |raws| - 1);
    assert raws[..|raws|] == raws;
  }

  /** One file of the table reads back as its blob. */
  lemma FileAtHolds(env: Env, l: Layout, bounds: Bounds, raws: seq<Bytes>, entry: FileEntry, i: nat)
    requires ValidLayout(env, l) && FramesOf(raws, bounds, Stream(env, l.blobs)) && i < |l.blobs|
    requires FileAt(entry, l.blobs[i], bounds, l.starts[i], l.sizes[i])
    ensures FileHolds(env, entry, l.blobs[i], raws)
    ensures Length(entry.fragments) == l.sizes[i]
  {
    FileSlice(env, l, i);
    SpelledBytes(entry.fragments, bounds, raws, Stream(env, l.blobs), l.starts[i], l.starts[i] + l.sizes[i]);
    SpelledInFrames(entry.fragments, bounds, raws, Stream(env, l.blobs), l.starts[i], l.starts[i] + l.sizes[i]);
  }

  /** One file of the table fits, whatever the frames hold. */
  lemma FileAtFits(env: Env, l: Layout, bounds: Bounds, raws: seq<Bytes>, out: Bytes, entry: FileEntry, i: nat)
    requires ValidLayout(env, l) && FramesOf(raws, bounds, out) && i < |l.blobs|
    requires FileAt(entry, l.blobs[i], bounds, l.starts[i], l.sizes[i])
    ensures EntryFits(env, entry, l.blobs[i], raws) && Length(entry.fragments) == l.sizes[i]
  {
    hide FramesOf, Length, InFrame, Stream;
    FileSlice(env, l, i);
    SpelledInFrames(entry.fragments, bounds, raws, out, l.starts[i], l.starts[i] + l.sizes[i]);
  }

  /** The files table over the frames fits the tree, packed. */
  lemma TableFits(env: Env, l: Layout, bounds: Bounds, raws: seq<Bytes>, out: Bytes, files: seq<FileEntry>)
    requires ValidLayout(env, l) && |files| == |l.blobs| && |out| == l.total
    requires l.blobs != [] ==> FramesOf(raws, bounds, out)
    requires l.blobs == [] ==> raws == []
    requires forall i :: 0 <= i < |files| ==> FileAt(files[i], l.blobs[i], bounds, l.starts[i], l.sizes[i])
    ensures EntriesFit(env, files, l.blobs, raws) && Packed(files, raws)
    ensures Concat(raws) == out
  {
    hide EntryFits, Stream, FramesOf, Length, Spells;
    forall i | 0 <= i < |files|
      ensures EntryFits(env, files[i], l.blobs[i], raws) && Length(files[i].fragments) == l.sizes[i]
    {
      FileAtFits(env, l, bounds, raws, out, files[i], i);
    }
    assert FileLens(files) == l.sizes;
    TotalIsLength(env, l);
    if l.blobs != [] {
      FramesAreStream(raws, bounds, out);
      SpellsAre(env, l, bounds, files);
    }
  }

  lemma SpellsAre(env: Env, l: Layout, bounds: Bounds, files: seq<FileEntry>)
    requires ValidLayout(env, l) && |files| == |l.blobs| && FileLens(files) == l.sizes
    requires forall i :: 0 <= i < |files| ==> FileAt(files[i], l.blobs[i], bounds, l.starts[i], l.sizes[i])
    ensures forall i :: 0 <= i < |files| ==>
      Spells(files[i].fragments, bounds, Sum(FileLens(files)[..i]),
        Sum(FileLens(files)[..i]) + Length(files[i].fragments))
  {
    hide Spells, Length, Sum, BlobSizes;
    forall i | 0 <= i < |files|
      ensures l.starts[i] == Sum(FileLens(files)[..i]) && l.sizes[i] == Length(files[i].fragments)
    {
      assert FileLens(files)[i] == Length(files[i].fragments);
    }
  }

  /** A well-formed base: its files are those of `tree` and read back as its blobs. */
  ghost predicate BaseOf(env: Env, a: Archive, gs: seq<Group>, tree: seq<TreeFile>) {
    GroupedBy(env, a, gs) && FilesHold(env, a.metadata.files, tree, Raws(env, a.frames))
  }

  /** The ranges recovered from the base are right: its frames hold its files' bytes
      in the order its table lists them. A base whose totals differ is refused. */
  ghost predicate Recoverable(env: Env, a: Archive, tree: seq<TreeFile>) {
    |Concat(Raws(env, a.frames))| == |Stream(env, tree)| ==> Concat(Raws(env, a.frames)) == Stream(env, tree)
  }

  /** Index the base, if there is one that can be used. */
  method IndexBase(env: Env, base: Option<Archive>, ghost gs: seq<Group>, ghost tree: seq<TreeFile>)
    returns (r: Option<BaseIndex>)
    requires Lawful(env)
    requires base.Some? ==> BaseOf(env, base.value, gs, tree)
    ensures r.Some? ==> FramesIndexed(env, r.value) && FilesClaimed(env, r.value, Stream(env, tree))
    ensures r.Some? ==> base.Some? && IndexOf(r.value, base.value, gs)
    ensures base.Some? ==>
      (r.Some? <==> |Concat(Raws(env, base.value.frames))| == |Stream(env, tree)| <= U64_MAX)
  {
    hide GroupedBy, FilesHold, FramesIndexed, FilesClaimed, BundlesFrom, IsEntry, Lawful, Stream, Concat, Sum, FileLens;
    if base.None? {
      return None;
    }
    var ix := NewBaseIndex(env, base.value, gs, tree);
    BaseLengths(env, base.value, gs, tree);
    return if ix.Ok? then Some(ix.value) else None;
  }

  /** The index lists the base's frames, bundles and files. */
  ghost predicate IndexOf(ix: BaseIndex, a: Archive, gs: seq<Group>) {
    && ix.frames == a.frames
    && BundlesFrom(ix.bundles, gs, a.bundles, |gs|)
    && (forall p :: p in ix.files ==> exists i :: IsEntry(a.metadata.files, i, p, ix.files[p]))
    && (forall i :: 0 <= i < |a.metadata.files| ==> a.metadata.files[i].path in ix.files)
  }

  lemma BaseLengths(env: Env, a: Archive, gs: seq<Group>, tree: seq<TreeFile>)
    requires BaseOf(env, a, gs, tree)
    ensures Sum(FileLens(a.metadata.files)) == |Stream(env, tree)|
    ensures Sum(RawLens(a.frames)) == |Concat(Raws(env, a.frames))|
  {
    SameLengths(env, a.metadata.files, tree, Raws(env, a.frames));
    StartsAre(env, a.frames, 0);
  }

  /** Lay out the tree and hand its frames to the bundler, by the plan or by
      streaming it all. The frames hold `out`, which is the tree's stream unless the
      base's index is wrong about its frames. */
  method EmitTree(env: Env, blobs: seq<TreeFile>, gitlinks: seq<Bytes>, b: Bundler, min: nat, ghost claimed: Bytes,
                  ghost m: nat)
    returns (r: Result<(Layout, Bounds, nat)>, ghost fs: seq<ArchiveFrame>, ghost out: Bytes)
    requires Lawful(env) && StreamKnown(env, Stream(env, blobs))
    requires b.env == env && Received(b, []) && b.made == 0
    requires b.base.Some? ==> FramesIndexed(env, b.base.value) && FilesClaimed(env, b.base.value, claimed)
    modifies b
    ensures r.Ok? ==> ValidLayout(env, r.value.0) && r.value.0.blobs == blobs && r.value.0.gitlinks == gitlinks
    ensures r.Ok? ==> r.value.0.total <= U64_MAX && r.value.0.sizes == BlobSizes(env, blobs)
    ensures r.Ok? ==> Received(b, fs) && Emitted(env, out, r.value.1, fs, r.value.0.total) && |out| == r.value.0.total
    ensures r.Ok? && (b.base.Some? ==> Concat(Raws(env, b.base.value.frames)) == claimed) ==> out == Stream(env, blobs)
    ensures r.Ok? ==> (r.value.1 == [] <==> blobs == [])
    ensures r.Ok? && r.value.0.total > 0 ==> NonEmpty(r.value.1)
    ensures r.Ok? && r.value.0.total > 0 && b.base.Some? && Unmoved(env, blobs, b.base.value, m) ==>
      b.made == 0 && r.value.2 == 0 && KeptAll(b.base.value, m, fs)
    ensures r.Ok? && r.value.0.total == 0 ==> r.value.2 == 0 && EmptyTreeFrame(b, r.value.0, fs)
    ensures r.Err? ==> r.error in {Limit, Unreadable}
  {
    hide *;
    var plan: Option<(Plan, seq<nat>)> := None;
    if b.base.Some? {
      var planned := PlanIncremental(env, blobs, b.base.value, min, claimed, m);
      if planned.Err? {
        return Err(planned.error), [], [];
      }
      plan := planned.value;
    }
    var sizes := if plan.Some? then plan.value.1 else BlobSizes(env, blobs);
    SizesCount(env, blobs);
    var layout := NewLayout(blobs, gitlinks, sizes);
    if layout.Err? {
      return Err(layout.error), [], [];
    }
    var l := layout.value;
    LayoutShape(env, l);
    LayoutTotal(env, l);
    if plan.Some? {
      ghost var ix, stream := b.base.value, Stream(env, blobs);
      PlanStart(env, plan.value.0, ix, claimed, stream, min);
      out := Output(env, plan.value.0.reused, ix, stream);
      NoGapBytes();
      var built;
      built, fs := BuildGaps(env, l, plan.value.0, b.base.value, b, claimed, min);
      if built.Err? {
        return Err(built.error), fs, out;
      }
      if claimed == Concat(Raws(env, ix.frames)) { PlanExact(env, plan.value.0, ix, stream, min); }
      if Unmoved(env, blobs, ix, m) { UnmovedKept(env, blobs, ix, m, fs); }
      return Ok((l, built.value.0, built.value.1)), fs, out;
    }
    out := Stream(env, blobs);
    var bounds;
    bounds, fs := StreamFrames(env, l, b);
    if bounds.Err? {
      return Err(bounds.error), fs, out;
    }
    StreamedNonEmpty(l, bounds.value);
    return Ok((l, bounds.value, l.total)), fs, out;
  }

  /** The frames emitted are the base's first `m`, when those all hold bytes. */
  ghost predicate KeptAll(ix: BaseIndex, m: nat, fs: seq<ArchiveFrame>) {
    m <= |ix.frames| && ((forall k :: 0 <= k < m ==> ix.frames[k].rawLen > 0) ==> fs == ix.frames[..m])
  }

  lemma PlanExact(env: Env, plan: Plan, ix: BaseIndex, stream: Bytes, min: nat)
    requires FramesIndexed(env, ix) && PlanOk(plan, ix, Concat(Raws(env, ix.frames)), stream, min)
    ensures Output(env, plan.reused, ix, stream) == stream
  {
    hide FramesIndexed, Concat, Raws, Output;
    OutputExact(env, plan.reused, ix, stream);
  }

  lemma UnmovedKept(env: Env, blobs: seq<TreeFile>, ix: BaseIndex, m: nat, fs: seq<ArchiveFrame>)
    requires FramesIndexed(env, ix) && Unmoved(env, blobs, ix, m)
    requires var ks := Themselves(ix, m);
      (forall i :: 0 <= i < |ks| ==> ks[i].frame < |ix.frames|) ==> fs == Picked(ix, ks, |ks|)
    ensures KeptAll(ix, m, fs)
  {
    hide FramesIndexed, Picked, Themselves;
    PickedThemselves(env, ix, m);
  }

  lemma SizesCount(env: Env, blobs: seq<TreeFile>)
    ensures |BlobSizes(env, blobs)| == |blobs|
  {}

  lemma LayoutTotal(env: Env, l: Layout)
    requires ValidLayout(env, l)
    ensures l.total == Sum(BlobSizes(env, l.blobs))
  {}

  lemma StreamedNonEmpty(l: Layout, bounds: Bounds)
    requires l.total > 0 ==> forall k :: 0 <= k < |bounds| ==> bounds[k].lo < bounds[k].hi
    ensures l.total > 0 ==> NonEmpty(bounds)
  {}

  /** Keeping every frame that holds bytes keeps every frame, when all do. */
  lemma {:induction false} PickedThemselves(env: Env, ix: BaseIndex, n: nat)
    requires FramesIndexed(env, ix) && n <= |ix.frames|
    ensures n < |ix.starts| && forall i :: 0 <= i < |Themselves(ix, n)| ==> Themselves(ix, n)[i].frame < n
    ensures (forall k :: 0 <= k < n ==> ix.frames[k].rawLen > 0) ==>
      |Themselves(ix, n)| == n && Picked(ix, Themselves(ix, n), n) == ix.frames[..n]
  {
    hide FramesIndexed, Themselves;
    ThemselvesNone(env, ix);
    if n > 0 {
      PickedThemselves(env, ix, n - 1);
      ThemselvesNext(env, ix, n - 1);
      if forall k :: 0 <= k < n ==> ix.frames[k].rawLen > 0 {
        assert ix.frames[n - 1].rawLen > 0;
        PickedSnoc(ix, Themselves(ix, n - 1), Kept(ix.starts[n - 1], ix.starts[n], n - 1));
        assert ix.frames[..n] == ix.frames[..n - 1] + [ix.frames[n - 1]];
      }
    }
  }

  lemma PickedSnoc(ix: BaseIndex, ks: seq<Kept>, k: Kept)
    requires k.frame < |ix.frames| && forall i :: 0 <= i < |ks| ==> ks[i].frame < |ix.frames|
    ensures Picked(ix, ks + [k], |ks| + 1) == Picked(ix, ks, |ks|) + [ix.frames[k.frame]]
  {
    PickedPrefix(ix, ks, ks + [k], |ks|);
  }

  lemma ThemselvesNone(env: Env, ix: BaseIndex)
    requires FramesIndexed(env, ix)
    ensures |ix.starts| == |ix.frames| + 1 && Themselves(ix, 0) == []
  {}

  lemma ThemselvesNext(env: Env, ix: BaseIndex, k: nat)
    requires FramesIndexed(env, ix) && k < |ix.frames| == |ix.starts| - 1
    ensures Themselves(ix, k + 1) == Themselves(ix, k) + if ix.frames[k].rawLen > 0
      then [Kept(ix.starts[k], ix.starts[k + 1], k)] else []
  {
    hide BundlesOk, ByRawOk, FramesOk;
    SumNext(RawLens(ix.frames), k);
  }

  lemma {:induction false} PickedPrefix(ix: BaseIndex, a: seq<Kept>, b: seq<Kept>, m: nat)
    requires m <= |a| && a <= b
    requires forall i :: 0 <= i < |b| ==> b[i].frame < |ix.frames|
    ensures Picked(ix, a, m) == Picked(ix, b, m)
  {
    if m > 0 {
      PickedPrefix(ix, a, b, m - 1);
    }
  }

  /** The bundler's output with the files table is laid out for the tree, over `out`. */
  lemma BuiltLaid(env: Env, l: Layout, bounds: Bounds, fs: seq<ArchiveFrame>, files: seq<FileEntry>, b: Bundler,
                  out: Bytes, target: nat)
    requires ValidLayout(env, l) && |files| == |l.blobs| && |out| == l.total
    requires forall i :: 0 <= i < |files| ==> FileAt(files[i], l.blobs[i], bounds, l.starts[i], l.sizes[i])
    requires Emitted(env, out, bounds, fs, l.total)
    requires bounds == [] <==> l.blobs == []
    requires l.total > 0 ==> NonEmpty(bounds)
    requires l.total == 0 ==> |fs| == if l.blobs == [] then 0 else 1
    requires b.env == env && b.Valid() && b.min == MinLen(target) && b.max == MaxLen(target) && target <= U64_MAX
    requires b.cuts == Close(PushAll(NoCuts, fs, b.min, b.max))
    ensures Laid(env, Archive(b.out.frames, Metadata(b.out.infos, files, l.gitlinks), b.out.bundles), l.blobs,
      l.gitlinks, target)
    ensures b.out.frames == fs && Concat(Raws(env, fs)) == out
  {
    hide *;
    TotalIsLength(env, l);
    LengthsOrdered(target);
    BuiltFrames(env, b, fs);
    HoldAll(env, out, bounds, fs, l.total);
    BuiltGrouped(env, b, fs, files, l.gitlinks);
    if l.blobs != [] {
      EmittedAll(env, out, bounds, fs);
    } else {
      EmittedCount(env, out, bounds, fs, l.total);
    }
    TableFits(env, l, bounds, Raws(env, fs), out, files);
    FramedBounds(env, l, bounds, fs, out);
    IsLaid(env, Archive(b.out.frames, Metadata(b.out.infos, files, l.gitlinks), b.out.bundles), l.blobs, l.gitlinks,
      target);
  }

  lemma IsLaid(env: Env, a: Archive, tree: seq<TreeFile>, gitlinks: seq<Bytes>, target: nat)
    requires GroupedBy(env, a, Bundled(a.frames, MinLen(target), MaxLen(target))) && a.metadata.gitlinks == gitlinks
    requires EntriesFit(env, a.metadata.files, tree, Raws(env, a.frames))
      && Packed(a.metadata.files, Raws(env, a.frames))
    requires |Concat(Raws(env, a.frames))| == |Stream(env, tree)| && Framed(env, a.frames, tree)
    ensures Laid(env, a, tree, gitlinks, target)
  {}

  lemma LengthsOrdered(target: nat)
    requires target <= U64_MAX
    ensures 0 < MinLen(target) <= MaxLen(target) <= U64_MAX
  {}

  /** Every frame takes up bytes, or there is at most one. */
  ghost predicate Solid(fs: seq<ArchiveFrame>) {
    |fs| <= 1 || forall k :: 0 <= k < |fs| ==> fs[k].compressedLen > 0
  }

  /** A frame that holds bytes takes up bytes. */
  lemma FrameTakesBytes(env: Env, f: ArchiveFrame)
    requires Lawful(env) && FrameOk(env, f) && f.rawLen > 0
    ensures f.compressedLen > 0
  {
    hide Named;
  }

  /** The frames of a build are solid. */
  lemma HoldAll(env: Env, out: Bytes, bounds: Bounds, fs: seq<ArchiveFrame>, total: nat)
    requires Lawful(env) && FramesOk(env, fs) && Emitted(env, out, bounds, fs, total)
    requires if total > 0 then NonEmpty(bounds) else |fs| <= 1
    ensures Solid(fs)
  {
    hide Lawful, FrameOk, Raw;
    if total > 0 {
      forall k | 0 <= k < |fs| ensures fs[k].compressedLen > 0 {
        RawLength(env, fs[k]);
        FrameTakesBytes(env, fs[k]);
      }
    }
  }

  lemma RawLength(env: Env, f: ArchiveFrame)
    requires FrameOk(env, f)
    ensures f.rawLen == |Raw(env, f)|
  {}

  /** Bundles are no longer than `max`, or one frame; and an empty frame is alone. */
  lemma BundlesFit(fs: seq<ArchiveFrame>, min: nat, max: nat, g: nat)
    requires min <= max <= U64_MAX && g < |Bundled(fs, min, max)| && FramesFit(fs) && Solid(fs)
    ensures var group := Bundled(fs, min, max)[g];
      && group != [] && GroupLen(group) <= U64_MAX
      && (|group| == 1 || forall j :: 0 <= j < |group| ==> group[j].compressedLen > 0)
  {
    hide PushAll, Close, GroupLen, Concat, Bundled, AllInfos, GroupInfos;
    var gs := Bundled(fs, min, max);
    BundledShape(fs, min, max);
    FirstNext(gs, g);
    forall j | 0 <= j < |gs[g]| ensures gs[g][j] in fs {
      InfoAt(gs, g, j);
    }
    if |gs[g]| == 1 {
      OneLen(gs[g]);
    }
  }

  lemma OneLen(g: Group)
    requires |g| == 1
    ensures GroupLen(g) == g[0].compressedLen
  {
    assert g[..0] == [];
  }

  /** What the bundler put out are the frames it took. */
  lemma BuiltFrames(env: Env, b: Bundler, fs: seq<ArchiveFrame>)
    requires b.env == env && b.Valid() && b.cuts == Close(PushAll(NoCuts, fs, b.min, b.max)) && b.min <= b.max
    ensures b.out.frames == fs && FramesOk(env, fs) && FramesFit(fs) && Lawful(env)
    ensures b.cuts.closed == Bundled(fs, b.min, b.max) && b.out.infos == AllInfos(b.cuts.closed)
    ensures |b.out.bundles| == |b.cuts.closed|
    ensures forall g :: 0 <= g < |b.cuts.closed| ==> b.out.bundles[g] == env.hash(Body(env, b.cuts.closed[g]))
  {
    hide Lawful, StoresKnown, BaseOk, GroupOk, CountsOk, AllInfos, PushAll, Body, FrameOk, Concat, GroupLen, FramesFit;
    PushAllFrames(fs, b.min, b.max);
    CloseFrames(PushAll(NoCuts, fs, b.min, b.max));
    ClosedAll(b.cuts, fs);
  }

  lemma BuiltGrouped(env: Env, b: Bundler, fs: seq<ArchiveFrame>, files: seq<FileEntry>, gitlinks: seq<Bytes>)
    requires b.env == env && b.Valid() && Solid(fs)
    requires b.cuts == Close(PushAll(NoCuts, fs, b.min, b.max)) && b.min <= b.max <= U64_MAX
    ensures b.out.frames == fs && FramesOk(env, fs)
    ensures GroupedBy(env, Archive(b.out.frames, Metadata(b.out.infos, files, gitlinks), b.out.bundles),
      Bundled(fs, b.min, b.max))
  {
    hide *;
    BuiltFrames(env, b, fs);
    var gs := Bundled(fs, b.min, b.max);
    forall g | 0 <= g < |gs| ensures BundleOk(env, gs[g], b.out.bundles[g]) {
      BundlesFit(fs, b.min, b.max, g);
      IsBundle(env, gs[g], b.out.bundles[g]);
    }
    BundledAll(fs, b.min, b.max);
    AreGrouped(env, Archive(b.out.frames, Metadata(b.out.infos, files, gitlinks), b.out.bundles), gs);
  }

  lemma BundledAll(fs: seq<ArchiveFrame>, min: nat, max: nat)
    requires min <= max
    ensures Concat(Bundled(fs, min, max)) == fs
  {
    BundledShape(fs, min, max);
  }

  lemma IsBundle(env: Env, g: Group, name: Digest)
    requires g != [] && name == env.hash(Body(env, g)) && GroupLen(g) <= U64_MAX
    requires |g| == 1 || forall j :: 0 <= j < |g| ==> g[j].compressedLen > 0
    ensures BundleOk(env, g, name)
  {}

  lemma AreGrouped(env: Env, a: Archive, gs: seq<Group>)
    requires a.frames == Concat(gs) && a.metadata.frames == AllInfos(gs) && |a.bundles| == |gs|
      && FramesOk(env, a.frames)
    requires forall g :: 0 <= g < |gs| ==> BundleOk(env, gs[g], a.bundles[g])
    ensures GroupedBy(env, a, gs)
  {
    hide BundleOk, Concat, AllInfos, FramesOk;
  }

  lemma ClosedAll(c: Cuts, fs: seq<ArchiveFrame>)
    requires AllFrames(c) == fs && c.open == []
    ensures Concat(c.closed) == fs
  {}

  lemma EmittedCount(env: Env, stream: Bytes, bounds: Bounds, fs: seq<ArchiveFrame>, pos: nat)
    requires Emitted(env, stream, bounds, fs, pos)
    ensures |fs| == |bounds|
    ensures fs == [] ==> Raws(env, fs) == []
  {}

  lemma FramedBounds(env: Env, l: Layout, bounds: Bounds, fs: seq<ArchiveFrame>, out: Bytes)
    requires Emitted(env, out, bounds, fs, l.total) && FramesOk(env, fs)
    requires l.total == |Stream(env, l.blobs)|
    requires l.total > 0 ==> NonEmpty(bounds)
    requires l.total == 0 ==> |fs| == if l.blobs == [] then 0 else 1
    ensures Framed(env, fs, l.blobs)
  {
    hide Stream, FrameOk, Raw;
    if l.total > 0 {
      forall k | 0 <= k < |fs| ensures fs[k].rawLen > 0 {
        RawLength(env, fs[k]);
      }
    }
  }

  /** No two paths alike. */
  ghost predicate DistinctPaths(tree: seq<TreeFile>) {
    forall i, j :: 0 <= i < j < |tree| ==> tree[i].path != tree[j].path
  }

  /** The first files of the base's tree, up to the end of its first `m` frames, are
      found unmoved in its index. */
  lemma FirstUnmoved(env: Env, a: Archive, gs: seq<Group>, tree: seq<TreeFile>, ix: BaseIndex, n: nat, m: nat)
    requires BaseOf(env, a, gs, tree) && IndexOf(ix, a, gs) && FramesIndexed(env, ix) && DistinctPaths(tree)
    requires n <= |tree| && m <= |a.frames| && |Stream(env, tree[..n])| == Sum(RawLens(a.frames)[..m])
    ensures Unmoved(env, tree[..n], ix, m)
  {
    hide GroupedBy, FilesHold, BlobSizes, BundlesOk, ByRawOk, BundlesFrom, IndexOf;
    var sizes, blobs := BlobSizes(env, tree), tree[..n];
    FrontSizes(env, tree, n);
    forall i | 0 <= i < n
      ensures Unchanged(ix, blobs[i]) && ix.files[blobs[i].path].start == Sum(BlobSizes(env, blobs)[..i])
    {
      FileIndexed(env, a, gs, tree, ix, i);
      assert sizes[..n][..i] == sizes[..i];
    }
    StreamTotal(env, blobs);
    IndexFrames(ix, a, gs);
  }

  lemma FrontSizes(env: Env, tree: seq<TreeFile>, n: nat)
    requires n <= |tree|
    ensures |BlobSizes(env, tree)| == |tree| && BlobSizes(env, tree[..n]) == BlobSizes(env, tree)[..n]
  {}

  lemma IndexFrames(ix: BaseIndex, a: Archive, gs: seq<Group>)
    requires IndexOf(ix, a, gs)
    ensures ix.frames == a.frames
  {}

  /** The index has each file of the tree at the lengths before it. */
  lemma FileIndexed(env: Env, a: Archive, gs: seq<Group>, tree: seq<TreeFile>, ix: BaseIndex, i: nat)
    requires BaseOf(env, a, gs, tree) && IndexOf(ix, a, gs) && DistinctPaths(tree) && i < |tree|
    ensures Unchanged(ix, tree[i]) && |BlobSizes(env, tree)| == |tree|
    ensures ix.files[tree[i].path].start == Sum(BlobSizes(env, tree)[..i])
  {
    hide GroupedBy, Read, InFrame, BundlesFrom, Length;
    var files, raws := a.metadata.files, Raws(env, a.frames);
    SameLengths(env, files, tree, raws);
    assert FileHolds(env, files[i], tree[i], raws);
    var k: nat :| IsEntry(files, k, tree[i].path, ix.files[tree[i].path]);
    assert FileHolds(env, files[k], tree[k], raws);
    assert k == i;
  }

  /** The tree the base was built from is found unmoved in its index. */
  lemma SameTreeUnmoved(env: Env, a: Archive, gs: seq<Group>, tree: seq<TreeFile>, ix: BaseIndex)
    requires BaseOf(env, a, gs, tree) && Concat(Raws(env, a.frames)) == Stream(env, tree)
    requires IndexOf(ix, a, gs) && FramesIndexed(env, ix) && DistinctPaths(tree)
    ensures Unmoved(env, tree, ix, |ix.frames|)
  {
    hide GroupedBy, FilesHold, FramesIndexed, IndexOf, Stream, Concat;
    IndexSameFrames(ix, a, gs);
    BaseLengths(env, a, gs, tree);
    assert tree[..|tree|] == tree && RawLens(a.frames)[..|a.frames|] == RawLens(a.frames);
    FirstUnmoved(env, a, gs, tree, ix, |tree|, |a.frames|);
  }

  /** Every bundle of the base is found by its key. */
  lemma {:induction false} NothingNew(env: Env, ix: BaseIndex, gs: seq<Group>, names: seq<Digest>, n: nat)
    requires BundlesFrom(ix.bundles, gs, names, |gs|) && n <= |gs|
    ensures NewOnes(env, Some(ix), gs[..n]) == []
    ensures gs[..|gs|] == gs
  {
    if n > 0 {
      NothingNew(env, ix, gs, names, n - 1);
      assert gs[..n][..n - 1] == gs[..n - 1];
    }
  }

  lemma IndexUsable(env: Env, index: Option<BaseIndex>)
    requires index.Some? ==> FramesIndexed(env, index.value)
    ensures BaseOk(env, index)
  {}

  lemma ReceivedNone(b: Bundler)
    requires b.Valid() && b.cuts == NoCuts
    ensures Received(b, [])
  {}

  lemma ReceivedIs(b: Bundler, fs: seq<ArchiveFrame>)
    requires Received(b, fs)
    ensures b.Valid() && b.cuts == PushAll(NoCuts, fs, b.min, b.max)
  {}

  lemma EmptyTreeCount(b: Bundler, l: Layout, fs: seq<ArchiveFrame>)
    requires EmptyTreeFrame(b, l, fs)
    ensures |fs| == if l.blobs == [] then 0 else 1
  {}

  lemma TilesOfEmitted(env: Env, l: Layout, bounds: Bounds, fs: seq<ArchiveFrame>, out: Bytes)
    requires ValidLayout(env, l) && Emitted(env, out, bounds, fs, l.total) && bounds != [] && |out| == l.total
    ensures Tiles(bounds, l.total)
  {
    EmittedAll(env, out, bounds, fs);
  }

  /** The base was built from this tree, at this bundle size. */
  ghost predicate SameTree(env: Env, base: Option<Archive>, blobs: seq<TreeFile>, gitlinks: seq<Bytes>, target: nat,
                           gs: seq<Group>, tree: seq<TreeFile>) {
    && base.Some? && PackedArchive(env, base.value, blobs, gitlinks, target)
    && DistinctPaths(blobs) && tree == blobs
    && gs == Bundled(base.value.frames, MinLen(target), MaxLen(target))
  }

  /** The tree is the base's first files, its totals agree, and the files end where
      the base's first `m` frames do. */
  ghost predicate FirstFiles(env: Env, base: Option<Archive>, blobs: seq<TreeFile>, tree: seq<TreeFile>, m: nat) {
    && base.Some? && DistinctPaths(tree) && blobs <= tree && 0 < |Stream(env, blobs)|
    && |Concat(Raws(env, base.value.frames))| == |Stream(env, tree)| <= U64_MAX
    && m <= |base.value.frames| && |Stream(env, blobs)| == Sum(RawLens(base.value.frames)[..m])
    && forall k :: 0 <= k < m ==> base.value.frames[k].rawLen > 0
  }

  /** The one frame of a base of only empty files is found by the empty hash. */
  lemma EmptyFound(env: Env, ix: BaseIndex)
    requires Lawful(env) && FramesIndexed(env, ix) && |ix.frames| == 1 && [] in env.known
      && Raw(env, ix.frames[0]) == []
    ensures env.hash([]) in ix.byRaw && ix.byRaw[env.hash([])] == 0
    ensures ix.frames[0] == ArchiveFrame(env.hash([]), ix.frames[0].chunkHash, ix.frames[0].compressedLen, 0)
  {
    hide BundlesOk;
    assert FrameOk(env, ix.frames[0]);
  }

  /** An unchanged tree of only empty files takes the base's one frame. */
  lemma SameEmptyFrame(env: Env, b: Bundler, l: Layout, base: Archive, gs: seq<Group>, fs: seq<ArchiveFrame>)
    requires b.env == env && Received(b, fs) && EmptyTreeFrame(b, l, fs)
    requires StreamKnown(env, Stream(env, l.blobs)) && ValidLayout(env, l) && l.total == 0
    requires b.base.Some? && b.base.value.frames == base.frames && FramesIndexed(env, b.base.value)
      && Framed(env, base.frames, l.blobs)
    requires FilesHold(env, base.metadata.files, l.blobs, Raws(env, base.frames))
    requires Packed(base.metadata.files, Raws(env, base.frames))
    ensures fs == base.frames && b.made == 0
  {
    hide FilesHold, ValidLayout, FramesIndexed, Stream, GroupOk, OutOk, StoresKnown, BaseOk, Lawful, Raws, BlobSizes;
    TotalIsLength(env, l);
    assert Stream(env, l.blobs)[0..0] == [];
    SameLengths(env, base.metadata.files, l.blobs, Raws(env, base.frames));
    LayoutTotal(env, l);
    if l.blobs != [] {
      OneFrame(env, base.frames);
      EmptyFound(env, b.base.value);
    }
  }

  lemma OneFrame(env: Env, fs: seq<ArchiveFrame>)
    requires |fs| == 1
    ensures Concat(Raws(env, fs)) == Raw(env, fs[0])
  {
    assert Raws(env, fs)[1..] == [];
  }

  /** With the base's own frames every bundle is the base's. */
  lemma RebuildNothing(env: Env, b: Bundler, base: Archive, gs: seq<Group>, fs: seq<ArchiveFrame>)
    requires b.env == env && b.Valid() && b.made == 0
    requires b.base.Some? && IndexOf(b.base.value, base, gs) && GroupedBy(env, base, gs)
    requires b.cuts == Close(PushAll(NoCuts, fs, b.min, b.max)) && gs == Bundled(fs, b.min, b.max)
    ensures b.out.newBundles == [] && b.out.reuse.bundlesBuilt == 0 && b.out.reuse.framesBuilt == 0
    ensures b.out.bundles == base.bundles
  {
    hide AllInfos, FramesOk, Lawful, StoresKnown, BaseOk, BundlesFrom, PushAll, Body;
    NothingNew(env, b.base.value, gs, base.bundles, |gs|);
  }

  /** Build the archive of a tree, on a well-formed base when there is one. Only a
      size past its field or unreadable base bytes can stop it. The archive is laid
      out for the tree; it is exactly the tree when the base's recovered ranges are
      right. Rebuilding the base's own tree at the same bundle size reads nothing,
      makes nothing and gives the same frames and bundles; a tree of the base's first
      files takes the base's first frames, right or wrong. */
  method BuildIntoCas(env: Env, stores: Stores, blobs: seq<TreeFile>, gitlinks: seq<Bytes>, base: Option<Archive>,
                      target: nat, min: nat, ghost gs: seq<Group>, ghost tree: seq<TreeFile>, ghost m: nat)
    returns (r: Result<Built>)
    requires Lawful(env) && StoresKnown(env, stores) && StreamKnown(env, Stream(env, blobs))
    requires base.Some? ==> BaseOf(env, base.value, gs, tree)
    requires target <= U64_MAX
    ensures r.Ok? ==> Laid(env, r.value.archive, blobs, gitlinks, target)
    ensures r.Ok? && (base.Some? ==> Recoverable(env, base.value, tree)) ==>
      PackedArchive(env, r.value.archive, blobs, gitlinks, target)
    ensures r.Err? ==> r.error in {Limit, Unreadable}
    ensures r.Ok? && SameTree(env, base, blobs, gitlinks, target, gs, tree) ==>
      && r.value.bytesRead == 0 && r.value.reuse.framesBuilt == 0 && r.value.reuse.bundlesBuilt == 0
      && r.value.newBundles == [] && r.value.archive.bundles == base.value.bundles
         && r.value.archive.frames == base.value.frames
    ensures r.Ok? && FirstFiles(env, base, blobs, tree, m) ==>
      m <= |base.value.frames| && r.value.archive.frames == base.value.frames[..m]
  {
    hide *;
    var index := IndexBase(env, base, gs, tree);
    IndexUsable(env, index);
    var b := new Bundler(env, stores, index, target);
    ReceivedNone(b);
    ghost var same := SameTree(env, base, blobs, gitlinks, target, gs, tree);
    ghost var upTo := if same && index.Some? then |index.value.frames| else m;
    var emitted; ghost var fs, out;
    emitted, fs, out := EmitTree(env, blobs, gitlinks, b, min, Stream(env, tree), upTo);
    if emitted.Err? {
      return Err(emitted.error);
    }
    var l, bounds, bytesRead := emitted.value.0, emitted.value.1, emitted.value.2;
    ReceivedIs(b, fs);
    if l.total == 0 { EmptyTreeCount(b, l, fs); }
    LayoutLength(env, l);
    if same {
      SameTreeFrames(env, b, l, base, gitlinks, target, gs, tree, fs);
    } else if FirstFiles(env, base, blobs, tree, m) {
      FirstFrames(env, b, l, base, gs, tree, m, fs);
    }
    var closed := b.Close();
    if closed.Err? {
      return Err(closed.error);
    }
    if blobs != [] { TilesOfEmitted(env, l, bounds, fs, out); }
    var files := FilesTable(env, l, bounds);
    if files.Err? {
      return Err(files.error);
    }
    BuiltLaid(env, l, bounds, fs, files.value, b, out, target);
    if same { RebuildNothing(env, b, base.value, gs, fs); }
    var archive := Archive(b.out.frames, Metadata(b.out.infos, files.value, l.gitlinks), b.out.bundles);
    if base.Some? ==> Recoverable(env, base.value, tree) {
      RightOutput(env, index, base, gs, tree);
      LaidExact(env, archive, blobs, gitlinks, target);
    }
    if same && FirstFiles(env, base, blobs, tree, m) { WholeFirst(env, base, blobs, tree, gs, gitlinks, target, m); }
    return Ok(Built(archive, b.out.newBundles, b.out.reuse, bytesRead));
  }

  lemma LayoutLength(env: Env, l: Layout)
    requires ValidLayout(env, l)
    ensures l.total == |Stream(env, l.blobs)|
  {
    TotalIsLength(env, l);
  }

  /** An accepted base with right ranges holds the stream it claims. */
  lemma RightOutput(env: Env, index: Option<BaseIndex>, base: Option<Archive>, gs: seq<Group>, tree: seq<TreeFile>)
    requires index.Some? ==> base.Some? && IndexOf(index.value, base.value, gs)
    requires index.Some? ==> |Concat(Raws(env, base.value.frames))| == |Stream(env, tree)|
    requires base.Some? ==> Recoverable(env, base.value, tree)
    ensures index.Some? ==> Concat(Raws(env, index.value.frames)) == Stream(env, tree)
  {
    hide IndexOf, Concat, Raws, Stream;
    if index.Some? {
      IndexSameFrames(index.value, base.value, gs);
    }
  }

  /** The base's own tree ends at its last frame only. */
  lemma WholeFirst(env: Env, base: Option<Archive>, blobs: seq<TreeFile>, tree: seq<TreeFile>, gs: seq<Group>,
                   gitlinks: seq<Bytes>, target: nat, m: nat)
    requires SameTree(env, base, blobs, gitlinks, target, gs, tree) && FirstFiles(env, base, blobs, tree, m)
    requires base.Some? ==> BaseOf(env, base.value, gs, tree)
    ensures m == |base.value.frames| && base.value.frames[..m] == base.value.frames
  {
    hide GroupedBy, FilesHold, Packed, EntriesFit, Stream, Concat, Sum, Raws, MinLen, MaxLen;
    assert forall k :: 0 <= k < |base.value.frames| ==> RawLens(base.value.frames)[k] > 0;
    var lens, n := RawLens(base.value.frames), |base.value.frames|;
    BaseLengths(env, base.value, gs, tree);
    assert lens[..n] == lens;
    if m < n {
      SumNext(lens, m);
      SumMonotone(lens, m + 1, n);
    }
  }

  lemma FirstFrames(env: Env, b: Bundler, l: Layout, base: Option<Archive>, gs: seq<Group>, tree: seq<TreeFile>, m: nat,
                    fs: seq<ArchiveFrame>)
    requires base.Some? ==> BaseOf(env, base.value, gs, tree)
    requires FirstFiles(env, base, l.blobs, tree, m) && l.total == |Stream(env, l.blobs)|
    requires base.Some? && |Concat(Raws(env, base.value.frames))| == |Stream(env, tree)| <= U64_MAX ==> b.base.Some?
    requires b.base.Some? ==> base.Some? && IndexOf(b.base.value, base.value, gs) && FramesIndexed(env, b.base.value)
    requires l.total > 0 && b.base.Some? && Unmoved(env, l.blobs, b.base.value, m) ==> KeptAll(b.base.value, m, fs)
    ensures m <= |base.value.frames| && fs == base.value.frames[..m]
  {
    hide GroupedBy, FilesHold, FramesIndexed, IndexOf, Stream, Concat, Raws, Unmoved;
    IndexSameFrames(b.base.value, base.value, gs);
    assert tree[..|l.blobs|] == l.blobs;
    FirstUnmoved(env, base.value, gs, tree, b.base.value, |l.blobs|, m);
  }

  /** An unchanged tree is emitted as the base's own frames. */
  lemma SameTreeFrames(env: Env, b: Bundler, l: Layout, base: Option<Archive>, gitlinks: seq<Bytes>, target: nat,
                       gs: seq<Group>, tree: seq<TreeFile>, fs: seq<ArchiveFrame>)
    requires SameTree(env, base, l.blobs, gitlinks, target, gs, tree)
    requires b.env == env && Received(b, fs) && b.min == MinLen(target) && b.max == MaxLen(target)
    requires ValidLayout(env, l) && l.total == |Stream(env, l.blobs)| <= U64_MAX
      && StreamKnown(env, Stream(env, l.blobs))
    requires base.Some? && |Concat(Raws(env, base.value.frames))| == |Stream(env, tree)| <= U64_MAX ==> b.base.Some?
    requires b.base.Some? ==> base.Some? && IndexOf(b.base.value, base.value, gs) && FramesIndexed(env, b.base.value)
    requires l.total > 0 && b.base.Some? && Unmoved(env, l.blobs, b.base.value, |b.base.value.frames|) ==>
      b.made == 0 && KeptAll(b.base.value, |b.base.value.frames|, fs)
    requires l.total == 0 ==> EmptyTreeFrame(b, l, fs)
    ensures b.base.Some? && IndexOf(b.base.value, base.value, gs) && GroupedBy(env, base.value, gs)
    ensures l.total > 0 ==> Unmoved(env, l.blobs, b.base.value, |b.base.value.frames|)
    ensures fs == base.value.frames && b.made == 0 && gs == Bundled(fs, b.min, b.max)
  {
    hide GroupedBy, FilesHold, Packed, EntriesFit, FramesIndexed, IndexOf, Received, Stream, ValidLayout,
      EmptyTreeFrame, Unmoved, StreamKnown, Concat;
    PackedIsSound(env, base.value, l.blobs, gitlinks, target);
    IndexSameFrames(b.base.value, base.value, gs);
    if l.total > 0 {
      SameTreeUnmoved(env, base.value, gs, tree, b.base.value);
      AllHoldBytes(env, base.value, l, gitlinks, target);
      assert base.value.frames[..|base.value.frames|] == base.value.frames;
    } else {
      SameEmptyFrame(env, b, l, base.value, gs, fs);
    }
  }

  lemma AllHoldBytes(env: Env, a: Archive, l: Layout, gitlinks: seq<Bytes>, target: nat)
    requires PackedArchive(env, a, l.blobs, gitlinks, target) && |Stream(env, l.blobs)| > 0
    ensures forall k :: 0 <= k < |a.frames| ==> a.frames[k].rawLen > 0
  {}

  lemma IndexSameFrames(ix: BaseIndex, a: Archive, gs: seq<Group>)
    requires IndexOf(ix, a, gs)
    ensures ix.frames == a.frames
  {}
}
