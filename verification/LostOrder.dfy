/** A compact table read back in another order: the index accepts it and the next
    compaction is wrong (rust/src/archive.rs, `BaseIndex::new`;
    rust/src/manifest.rs, `MetadataDelta::apply`). */
module LostOrders {
  import opened Clonepack
  import opened Seqs
  import opened Layouts
  import opened Grouping
  import opened Archives
  import opened BaseIndexes
  import opened Plans
  import opened Outputs
  import opened Bundlers
  import opened Streams
  import opened Builds
  import opened Listings
  import opened Deltas
  import opened DeltaOrders
  import opened DeltaStreams

  /** A compact archive of the files `pre`, then `b` and `c`, which hold different
      bytes of one length; its first `m` frames end where `b` does. */
  ghost predicate Compacted(env: Env, a: Archive, gs: seq<Group>, pre: seq<TreeFile>, b: TreeFile, c: TreeFile,
                            m: nat) {
    && BaseOf(env, a, gs, pre + [b, c]) && DistinctPaths(pre + [b, c])
    && Concat(Raws(env, a.frames)) == Stream(env, pre + [b, c]) && |Stream(env, pre + [b, c])| <= U64_MAX
    && |env.blob(b.oid)| == |env.blob(c.oid)| > 0 && env.blob(b.oid) != env.blob(c.oid)
    && m <= |a.frames| && |Stream(env, pre + [b])| == Sum(RawLens(a.frames)[..m])
    && forall k :: 0 <= k < m ==> a.frames[k].rawLen > 0
  }

  /** The table as read back when it is stored as changes from one with the files
      `base`. */
  function ReadBack(a: Archive, base: seq<FileEntry>): Archive {
    a.(metadata := a.metadata.(files := Reordered(base, a.metadata.files)))
  }

  lemma SameFrames(a: Archive, base: seq<FileEntry>)
    ensures ReadBack(a, base).frames == a.frames && ReadBack(a, base).bundles == a.bundles
  {}

  lemma LookupAt(files: seq<FileEntry>, i: nat)
    requires DistinctFiles(files) && i < |files|
    ensures Lookup(files, files[i].path) == Some(files[i])
  {
    LookupIs(files, files[i]);
  }

  /** The first files come back first. */
  lemma {:induction false} SharedFirst(base: seq<FileEntry>, files: seq<FileEntry>, n: nat)
    requires DistinctFiles(files) && n <= |base| && n <= |files| && PathsOf(base)[..n] == PathsOf(files)[..n]
    ensures Shared(base[..n], files) == files[..n]
  {
    if n > 0 {
      assert PathsOf(base)[..n - 1] == PathsOf(base)[..n][..n - 1]
        && PathsOf(files)[..n - 1] == PathsOf(files)[..n][..n - 1];
      SharedFirst(base, files, n - 1);
      assert base[..n][..n - 1] == base[..n - 1];
      assert base[n - 1].path == PathsOf(base)[..n][n - 1] == PathsOf(files)[..n][n - 1] == files[n - 1].path;
      LookupAt(files, n - 1);
    }
  }

  lemma {:induction false} FilterNone<T>(s: seq<T>, keep: T -> bool)
    requires forall i :: 0 <= i < |s| ==> !keep(s[i])
    ensures Filter(s, keep) == []
  {
    if s != [] {
      FilterNone(s[..|s| - 1], keep);
    }
  }

  /** A file added before the last comes back after it. */
  lemma AddedBeforeLast(base: seq<FileEntry>, files: seq<FileEntry>, n: nat)
    requires DistinctFiles(files) && |files| == n + 2 && PathsOf(base) == PathsOf(files[..n] + [files[n + 1]])
    ensures Reordered(base, files) == files[..n] + [files[n + 1], files[n]]
  {
    var paths := PathsOf(base);
    assert |base| == n + 1;
    forall i | 0 <= i < n ensures base[i].path == files[i].path {
      assert paths[i] == (files[..n] + [files[n + 1]])[i].path;
    }
    assert base[n].path == paths[n] == files[n + 1].path;
    assert PathsOf(base)[..n] == PathsOf(files)[..n];
    SharedFirst(base, files, n);
    LookupAt(files, n + 1);
    assert Shared(base, files) == files[..n] + [files[n + 1]];
    AddedOne(base, files, n);
    hide Shared, Added, Lookup, PathsOf, DistinctFiles;
  }

  lemma AddedOne(base: seq<FileEntry>, files: seq<FileEntry>, n: nat)
    requires DistinctFiles(files) && |files| == n + 2 && |base| == n + 1
    requires (forall i :: 0 <= i < n ==> base[i].path == files[i].path) && base[n].path == files[n + 1].path
    ensures Added(base, files) == [files[n]]
  {
    hide DistinctFiles, Filter, Lookup;
    forall i | 0 <= i < |files| ensures Lookup(base, files[i].path).None? <==> i == n {
      OneAbsent(base, files, n, i);
    }
    FilterOnly(files, n, (f: FileEntry) => Lookup(base, f.path).None?);
  }

  lemma OneAbsent(base: seq<FileEntry>, files: seq<FileEntry>, n: nat, i: nat)
    requires DistinctFiles(files) && |files| == n + 2 && |base| == n + 1 && i < |files|
    requires (forall k :: 0 <= k < n ==> base[k].path == files[k].path) && base[n].path == files[n + 1].path
    ensures Lookup(base, files[i].path).None? <==> i == n
  {
    hide Lookup, DistinctFiles;
    var path := files[i].path;
    LookupSound(base, path);
    if i != n {
      assert base[if i < n then i else n].path == path;
    } else if path in PathSet(base) {
      var k :| 0 <= k < |base| && base[k].path == path;
      ApartFrom(files, n, if k < n then k else n + 1);
    }
  }

  lemma ApartFrom(files: seq<FileEntry>, i: nat, j: nat)
    requires DistinctFiles(files) && i < |files| && j < |files| && i != j
    ensures files[i].path != files[j].path
  {
    assert if i < j then files[i].path != files[j].path else files[j].path != files[i].path;
  }

  lemma {:induction false} FilterOnly<T>(s: seq<T>, n: nat, keep: T -> bool)
    requires n < |s| && forall i :: 0 <= i < |s| ==> (keep(s[i]) <==> i == n)
    ensures Filter(s, keep) == [s[n]]
  {
    var k := |s| - 1;
    if n == k {
      FilterNone(s[..k], keep);
    } else {
      FilterOnly(s[..k], n, keep);
    }
  }

  /** However many files the table has: when those before the last two are kept, the
      delta lists at most those two and removes none. When the last is kept too it
      lists the new file alone. */
  lemma DeltaIsSmall(base: Metadata, frameMap: seq<nat>, table: Metadata, n: nat)
    requires |frameMap| == |base.frames| && DistinctFiles(table.files) && |table.files| == n + 2
    requires PathsOf(base.files) == PathsOf(table.files[..n] + [table.files[n + 1]])
    requires forall i :: 0 <= i < n ==> KeptFrom(base.files, frameMap, table.files[i])
    ensures var d := Between(base, frameMap, table).value;
      |d.files| <= 2 && d.removed == []
      && (KeptFrom(base.files, frameMap, table.files[n + 1]) ==> d.files == [table.files[n]])
  {
    var files := table.files;
    if KeptFrom(base.files, frameMap, files[n + 1]) {
      OneListed(base, frameMap, table, n);
    }
    var changed := (f: FileEntry) => !KeptFrom(base.files, frameMap, f);
    assert files == files[..n] + [files[n], files[n + 1]];
    FilterNone(files[..n], changed);
    FilterAppend(files[..n], [files[n], files[n + 1]], changed);
    FilterShrinks([files[n], files[n + 1]], changed);
    var gone := (f: FileEntry) => Lookup(files, f.path).None?;
    var kept := files[..n] + [files[n + 1]];
    forall i | 0 <= i < |base.files| ensures !gone(base.files[i]) {
      assert base.files[i].path == PathsOf(base.files)[i] == kept[i].path;
      LookupAt(files, if i < n then i else n + 1);
    }
    FilterNone(base.files, gone);
    hide Filter, KeptFrom, Lookup;
  }

  lemma OneListed(base: Metadata, frameMap: seq<nat>, table: Metadata, n: nat)
    requires |frameMap| == |base.frames| && DistinctFiles(table.files) && |table.files| == n + 2
    requires PathsOf(base.files) == PathsOf(table.files[..n] + [table.files[n + 1]])
    requires forall i :: 0 <= i < n + 2 && i != n ==> KeptFrom(base.files, frameMap, table.files[i])
    ensures Between(base, frameMap, table).value.files == [table.files[n]]
  {
    var files, kept := table.files, table.files[..n] + [table.files[n + 1]];
    forall i | 0 <= i < n + 1 ensures base.files[i].path == kept[i].path {
      assert base.files[i].path == PathsOf(base.files)[i] == PathsOf(kept)[i];
    }
    forall i | 0 <= i < |files| ensures KeptFrom(base.files, frameMap, files[i]) <==> i != n {
      OneAbsent(base.files, files, n, n);
    }
    hide KeptFrom, Filter, Lookup, DistinctFiles;
    FilterOnly(files, n, (f: FileEntry) => !KeptFrom(base.files, frameMap, f));
  }

  lemma {:induction false} FilterShrinks<T>(s: seq<T>, keep: T -> bool)
    ensures |Filter(s, keep)| <= |s|
  {
    if s != [] {
      FilterShrinks(s[..|s| - 1], keep);
    }
  }

  /** Read back, `b` is after `c`, the total is the same, and the frames do not hold
      the table's files in its order. */
  lemma ReadBackFacts(env: Env, a: Archive, gs: seq<Group>, pre: seq<TreeFile>, b: TreeFile, c: TreeFile, m: nat,
                      base: seq<FileEntry>)
    requires Compacted(env, a, gs, pre, b, c, m) && PathsOf(base) == PathsOf(EntriesOf(pre + [c]))
    ensures var back := ReadBack(a, base);
      && BaseOf(env, back, gs, pre + [c, b]) && !Recoverable(env, back, pre + [c, b])
      && FirstFiles(env, Some(back), pre + [c], pre + [c, b], m)
  {
    hide GroupedBy, FilesHold, Sum, RawLens, Stream, Concat, Raws, Reordered, TreeOf;
    var files, n := a.metadata.files, |pre|;
    TreeEntries(env, files, pre, b, c, Raws(env, a.frames));
    assert PathsOf(EntriesOf(pre + [c])) == PathsOf(files[..n] + [files[n + 1]]) by { KeptPaths(files, pre, b, c); }
    AddedBeforeLast(base, files, n);
    SwappedHold(env, files, pre, b, c, Raws(env, a.frames));
    SwappedStreams(env, pre, b, c);
    var back := ReadBack(a, base);
    SameGroups(env, a, back, gs);
    SwappedPaths(pre, b, c);
  }

  lemma SameGroups(env: Env, a: Archive, back: Archive, gs: seq<Group>)
    requires GroupedBy(env, a, gs) && back == a.(metadata := a.metadata.(files := back.metadata.files))
    ensures GroupedBy(env, back, gs)
  {}

  lemma TreeEntries(env: Env, files: seq<FileEntry>, pre: seq<TreeFile>, b: TreeFile, c: TreeFile, raws: seq<Bytes>)
    requires FilesHold(env, files, pre + [b, c], raws) && DistinctPaths(pre + [b, c])
    ensures |files| == |pre| + 2 && TreeOf(files) == pre + [b, c] && DistinctFiles(files)
  {
    var tree := pre + [b, c];
    forall i | 0 <= i < |files| ensures TreeOf(files)[i] == tree[i] && files[i].path == tree[i].path {
      assert FileHolds(env, files[i], tree[i], raws);
    }
    assert TreeOf(files) == tree;
  }

  lemma KeptPaths(files: seq<FileEntry>, pre: seq<TreeFile>, b: TreeFile, c: TreeFile)
    requires |files| == |pre| + 2 && TreeOf(files) == pre + [b, c]
    ensures PathsOf(EntriesOf(pre + [c])) == PathsOf(files[..|pre|] + [files[|pre| + 1]])
  {
    var x, y := PathsOf(EntriesOf(pre + [c])), PathsOf(files[..|pre|] + [files[|pre| + 1]]);
    forall i | 0 <= i < |x| ensures x[i] == y[i] {
      assert TreeOf(files)[if i < |pre| then i else i + 1].path == (pre + [c])[i].path;
    }
    assert x == y;
  }

  lemma SwappedHold(env: Env, files: seq<FileEntry>, pre: seq<TreeFile>, b: TreeFile, c: TreeFile, raws: seq<Bytes>)
    requires |files| == |pre| + 2 && FilesHold(env, files, pre + [b, c], raws)
    ensures FilesHold(env, files[..|pre|] + [files[|pre| + 1], files[|pre|]], pre + [c, b], raws)
  {
    hide FileHolds;
    var n := |pre|;
    var swapped, tree := files[..n] + [files[n + 1], files[n]], pre + [c, b];
    forall i | 0 <= i < |tree| ensures FileHolds(env, swapped[i], tree[i], raws) {
      var k := if i < n then i else if i == n then n + 1 else n;
      assert swapped[i] == files[k] && tree[i] == (pre + [b, c])[k];
    }
  }

  lemma SwappedStreams(env: Env, pre: seq<TreeFile>, b: TreeFile, c: TreeFile)
    requires |env.blob(b.oid)| == |env.blob(c.oid)| > 0 && env.blob(b.oid) != env.blob(c.oid)
    ensures |Stream(env, pre + [c, b])| == |Stream(env, pre + [b, c])|
      && Stream(env, pre + [c, b]) != Stream(env, pre + [b, c])
    ensures |Stream(env, pre + [c])| == |Stream(env, pre + [b])| > 0 && Stream(env, pre + [c]) != Stream(env, pre + [b])
    ensures Stream(env, pre + [b]) <= Stream(env, pre + [b, c])
  {
    var p, x, y := Stream(env, pre), env.blob(b.oid), env.blob(c.oid);
    StreamSnoc(env, pre, b);
    StreamSnoc(env, pre, c);
    StreamSnoc(env, pre + [b], c);
    StreamSnoc(env, pre + [c], b);
    assert pre + [b] + [c] == pre + [b, c] && pre + [c] + [b] == pre + [c, b];
    hide Stream;
    assert (p + x)[|p|..] == x && (p + y)[|p|..] == y;
    assert (p + x + y)[..|p| + |x|] == p + x && (p + y + x)[..|p| + |y|] == p + y;
  }

  lemma StreamSnoc(env: Env, tree: seq<TreeFile>, f: TreeFile)
    ensures Stream(env, tree + [f]) == Stream(env, tree) + env.blob(f.oid)
  {
    assert Contents(env, tree + [f]) == Contents(env, tree) + [env.blob(f.oid)];
    ConcatSnoc(Contents(env, tree), env.blob(f.oid));
  }

  lemma SwappedPaths(pre: seq<TreeFile>, b: TreeFile, c: TreeFile)
    requires DistinctPaths(pre + [b, c])
    ensures DistinctPaths(pre + [c, b]) && pre + [c] <= pre + [c, b]
  {
    var n, s, t := |pre|, pre + [b, c], pre + [c, b];
    forall i, j | 0 <= i < j < |t| ensures t[i].path != t[j].path {
      var k, l := if i < n then i else n + 1, if j < n then j else if j == n then n + 1 else n;
      assert t[i] == s[k] && t[j] == s[l];
      assert if k < l then s[k].path != s[l].path else s[l].path != s[k].path;
    }
  }

  /** The index accepts the table read back, and once `b` is removed the plan is to
      keep the frames up to `b` and read nothing: frames that do not hold the tree. */
  method LostPlan(env: Env, a: Archive, pre: seq<TreeFile>, b: TreeFile, c: TreeFile, base: seq<FileEntry>, min: nat,
                  ghost gs: seq<Group>, ghost m: nat)
    returns (ix: BaseIndex, plan: Plan)
    requires Lawful(env) && Compacted(env, a, gs, pre, b, c, m) && PathsOf(base) == PathsOf(EntriesOf(pre + [c]))
    ensures ix.frames == a.frames && m < |ix.starts| && plan == Plan(Themselves(ix, m), [])
    ensures Output(env, plan.reused, ix, Stream(env, pre + [c])) == Stream(env, pre + [b]) != Stream(env, pre + [c])
  {
    hide *;
    ghost var tree := pre + [c, b];
    ReadBackFacts(env, a, gs, pre, b, c, m, base);
    var back := ReadBack(a, base);
    SameFrames(a, base);
    FirstFacts(env, back, pre + [c], tree, m);
    var index := IndexBase(env, Some(back), gs, tree);
    ix := index.value;
    IndexSameFrames(ix, back, gs);
    assert tree[..|pre| + 1] == pre + [c];
    FirstUnmoved(env, back, gs, tree, ix, |pre| + 1, m);
    StreamTotal(env, pre + [c]);
    var planned := PlanIncremental(env, pre + [c], ix, min, Stream(env, tree), m);
    plan := planned.value.value.0;
    CompactedFacts(env, a, gs, pre, b, c, m);
    SwappedStreams(env, pre, b, c);
    StartAt(env, ix, m);
    FirstOutput(env, ix, Stream(env, pre + [c]), m, Stream(env, tree), min, plan);
    TakePrefix(Stream(env, pre + [b]), Stream(env, pre + [b, c]), ix.starts[m]);
  }

  lemma CompactedFacts(env: Env, a: Archive, gs: seq<Group>, pre: seq<TreeFile>, b: TreeFile, c: TreeFile, m: nat)
    requires Compacted(env, a, gs, pre, b, c, m)
    ensures Concat(Raws(env, a.frames)) == Stream(env, pre + [b, c])
    ensures |env.blob(b.oid)| == |env.blob(c.oid)| > 0 && env.blob(b.oid) != env.blob(c.oid)
    ensures m <= |a.frames| && |Stream(env, pre + [b])| == Sum(RawLens(a.frames)[..m])
    ensures GroupedBy(env, a, gs)
  {}

  lemma FirstFacts(env: Env, a: Archive, blobs: seq<TreeFile>, tree: seq<TreeFile>, m: nat)
    requires FirstFiles(env, Some(a), blobs, tree, m)
    ensures |Concat(Raws(env, a.frames))| == |Stream(env, tree)| <= U64_MAX && DistinctPaths(tree)
    ensures m <= |a.frames| && 0 < |Stream(env, blobs)| == Sum(RawLens(a.frames)[..m])
    ensures |Stream(env, blobs)| <= |Stream(env, tree)|
    ensures forall k :: 0 <= k < m ==> a.frames[k].rawLen > 0
  {
    StreamPrefix(env, tree, |blobs|);
    assert tree[..|blobs|] == blobs;
  }

  lemma StreamPrefix(env: Env, tree: seq<TreeFile>, n: nat)
    requires n <= |tree|
    ensures Stream(env, tree[..n]) <= Stream(env, tree)
  {
    var parts := Contents(env, tree);
    ConcatAppend(parts[..n], parts[n..]);
    assert parts[..n] + parts[n..] == parts && Contents(env, tree[..n]) == parts[..n];
  }

  lemma TakePrefix(a: Bytes, b: Bytes, n: nat)
    requires a <= b && n == |a|
    ensures b[..n] == a
  {}

  lemma StartAt(env: Env, ix: BaseIndex, m: nat)
    requires FramesIndexed(env, ix) && m <= |ix.frames|
    ensures m < |ix.starts| && ix.starts[m] == Sum(RawLens(ix.frames)[..m]) <= |Concat(Raws(env, ix.frames))|
  {
    hide BundlesOk, ByRawOk, FramesOk;
    StartsAre(env, ix.frames, m);
  }

  /** With no empty frame among them, the frames that hold bytes are all of them. */
  lemma {:induction false} ThemselvesAt(env: Env, ix: BaseIndex, m: nat, k: nat)
    requires FramesIndexed(env, ix) && k < m <= |ix.frames| && forall i :: 0 <= i < m ==> ix.frames[i].rawLen > 0
    ensures m < |ix.starts| && |Themselves(ix, m)| == m
      && Themselves(ix, m)[k] == Kept(ix.starts[k], ix.starts[k + 1], k)
  {
    hide BundlesOk, ByRawOk, FramesOk;
    PickedThemselves(env, ix, m);
    PickedThemselves(env, ix, m - 1);
    if k < m - 1 {
      ThemselvesAt(env, ix, m - 1, k);
    } else {
      SumNext(RawLens(ix.frames), k);
    }
  }

  /** What the first frames hold, up to frame `k`. */
  lemma {:induction false} HeldUpTo(env: Env, ix: BaseIndex, m: nat, k: nat, out: Bytes)
    requires FramesIndexed(env, ix) && k <= m <= |ix.frames| && forall i :: 0 <= i < m ==> ix.frames[i].rawLen > 0
    requires m < |ix.starts| && AllHeld(env, Themselves(ix, m), ix, out)
    ensures k < |ix.starts| && ix.starts[k] <= |out| && ix.starts[k] <= |Concat(Raws(env, ix.frames))|
    ensures out[..ix.starts[k]] == Concat(Raws(env, ix.frames))[..ix.starts[k]]
  {
    hide FramesIndexed, Concat, Raws, Raw, Themselves;
    if k == 0 {
      FirstStart(env, ix);
    } else {
      HeldUpTo(env, ix, m, k - 1, out);
      ThemselvesAt(env, ix, m, k - 1);
      FrameSlice(env, ix, k - 1);
      assert KeptHeld(env, Themselves(ix, m)[k - 1], ix, out);
      var s, t, whole := ix.starts[k - 1], ix.starts[k], Concat(Raws(env, ix.frames));
      assert out[..t] == out[..s] + out[s..t] && whole[..t] == whole[..s] + whole[s..t];
    }
  }

  lemma FirstStart(env: Env, ix: BaseIndex)
    requires FramesIndexed(env, ix)
    ensures 0 < |ix.starts| && ix.starts[0] == 0
  {
    StartsZero(env, ix);
  }

  /** A plan of the first `m` frames puts out their bytes. */
  lemma FirstOutput(env: Env, ix: BaseIndex, stream: Bytes, m: nat, claimed: Bytes, min: nat, plan: Plan)
    requires FramesIndexed(env, ix) && m <= |ix.frames| && m < |ix.starts| && plan.reused == Themselves(ix, m)
    requires PlanOk(plan, ix, claimed, stream, min) && |stream| == ix.starts[m] <= |Concat(Raws(env, ix.frames))|
    requires forall i :: 0 <= i < m ==> ix.frames[i].rawLen > 0
    ensures Output(env, plan.reused, ix, stream) == Concat(Raws(env, ix.frames))[..ix.starts[m]]
  {
    hide FramesIndexed, Concat, Raws, Output, Themselves, KeptOk;
    var out := Output(env, plan.reused, ix, stream);
    OutputHeld(env, plan.reused, ix, claimed, stream, min);
    OutputCount(env, plan.reused, ix, stream);
    HeldUpTo(env, ix, m, m, out);
    assert out[..ix.starts[m]] == out;
  }

  /** Compacting the tree without `b` onto the archive as read back gives an archive
      that is not the tree: only too large a size or unreadable bytes could stop it. */
  method CompactLost(env: Env, stores: Stores, back: Archive, pre: seq<TreeFile>, b: TreeFile, c: TreeFile,
                     gitlinks: seq<Bytes>, target: nat, min: nat, ghost a: Archive, ghost base: seq<FileEntry>,
                     ghost gs: seq<Group>, ghost m: nat)
    returns (r: Result<Built>)
    requires back == ReadBack(a, base)
    requires Lawful(env) && StoresKnown(env, stores) && StreamKnown(env, Stream(env, pre + [c])) && target <= U64_MAX
    requires Compacted(env, a, gs, pre, b, c, m) && PathsOf(base) == PathsOf(EntriesOf(pre + [c]))
    ensures r.Ok? ==> !Sound(env, r.value.archive, pre + [c], gitlinks)
    ensures r.Ok? ==> Concat(Raws(env, r.value.archive.frames)) == Stream(env, pre + [b])
    ensures r.Err? ==> r.error in {Limit, Unreadable}
  {
    hide *;
    ReadBackFacts(env, a, gs, pre, b, c, m, base);
    SameFrames(a, base);
    r := BuildIntoCas(env, stores, pre + [c], gitlinks, Some(back), target, min, gs, pre + [c, b], m);
    if r.Ok? {
      LaidExact(env, r.value.archive, pre + [c], gitlinks, target);
      CompactedFacts(env, a, gs, pre, b, c, m);
      SwappedStreams(env, pre, b, c);
      FramesPrefix(env, a.frames, m, gs, a);
      TakePrefix(Stream(env, pre + [b]), Stream(env, pre + [b, c]), |Stream(env, pre + [b])|);
    }
  }

  /** The first frames hold the stream up to where they end. */
  lemma FramesPrefix(env: Env, fs: seq<ArchiveFrame>, m: nat, gs: seq<Group>, a: Archive)
    requires GroupedBy(env, a, gs) && fs == a.frames && m <= |fs|
    ensures Sum(RawLens(fs)[..m]) <= |Concat(Raws(env, fs))|
    ensures Concat(Raws(env, fs[..m])) == Concat(Raws(env, fs))[..Sum(RawLens(fs)[..m])]
  {
    assert FramesOk(env, fs);
    hide *;
    RawsPrefix(env, fs, m);
    StartsAre(env, fs, m);
    ConcatTake(Raws(env, fs), m);
  }

  lemma RawsPrefix(env: Env, fs: seq<ArchiveFrame>, m: nat)
    requires m <= |fs|
    ensures |Raws(env, fs)| == |fs| && Raws(env, fs[..m]) == Raws(env, fs)[..m]
  {}
}
