/** An earlier build, indexed so that a new one can reuse its frames and bundles
    (rust/src/archive.rs, `BaseIndex`). */
module BaseIndexes {
  import opened Clonepack
  import opened Seqs
  import opened Fragments
  import opened Layouts
  import opened Grouping
  import opened Archives

  /** What the index says of a path: the blob it has and the range to find it at. */
  datatype BaseFile = BaseFile(blob: Oid, start: nat, len: nat)

  datatype Place = Place(bundle: Digest, offset: nat)

  datatype BaseIndex = BaseIndex(
    frames: seq<ArchiveFrame>,
    starts: seq<nat>,
    places: seq<Place>,
    byRaw: map<Digest, nat>,
    bundles: map<Bytes, Digest>,
    files: map<Bytes, BaseFile>)

  /** The chunk hashes of a bundle's frames, run together. */
  function Key(g: Group): Bytes {
    if g == [] then [] else Key(g[..|g| - 1]) + g[|g| - 1].chunkHash
  }

  predicate OneWidth(g: Group) {
    forall i :: 0 <= i < |g| ==> |g[i].chunkHash| == DIGEST_WIDTH
  }

  /** All hashes have one width, so a key names one sequence of hashes. */
  lemma {:induction false} KeyNamesHashes(g: Group, h: Group)
    requires OneWidth(g) && OneWidth(h) && Key(g) == Key(h)
    ensures |g| == |h|
    ensures forall i :: 0 <= i < |g| ==> g[i].chunkHash == h[i].chunkHash
  {
    KeyWidth(g);
    KeyWidth(h);
    if g != [] && h != [] {
      var m, n := |g| - 1, |h| - 1;
      LastHash(Key(g[..m]), g[m].chunkHash, Key(h[..n]), h[n].chunkHash);
      KeyNamesHashes(g[..m], h[..n]);
    }
  }

  /** ... and so one bundle's bytes. */
  lemma KeyNamesBody(env: Env, g: Group, h: Group)
    requires Lawful(env) && FramesOk(env, g) && FramesOk(env, h)
    requires Key(g) == Key(h)
    ensures Body(env, g) == Body(env, h)
  {
    hide Key, OneWidth, Lawful, FramesOk, Concat;
    FramesOneWidth(env, g);
    FramesOneWidth(env, h);
    KeyNamesHashes(g, h);
    SameComps(env, g, h);
  }

  lemma SameComps(env: Env, g: Group, h: Group)
    requires |g| == |h| && forall i :: 0 <= i < |g| ==> g[i].chunkHash == h[i].chunkHash
    ensures Comps(env, g) == Comps(env, h)
  {}

  lemma FramesOneWidth(env: Env, g: Group)
    requires Lawful(env) && FramesOk(env, g)
    ensures OneWidth(g)
  {
    forall i | 0 <= i < |g| ensures |g[i].chunkHash| == DIGEST_WIDTH {
      assert FrameOk(env, g[i]);
    }
  }

  lemma LastHash(a: Bytes, x: Digest, b: Bytes, y: Digest)
    requires |x| == |y| && a + x == b + y
    ensures a == b && x == y
  {
    assert (a + x)[..|a|] == a && (b + y)[..|b|] == b;
    assert (a + x)[|a|..] == x && (b + y)[|b|..] == y;
  }

  lemma {:induction false} KeyWidth(g: Group)
    requires OneWidth(g)
    ensures |Key(g)| == |g| * DIGEST_WIDTH
  {
    if g != [] {
      KeyWidth(g[..|g| - 1]);
    }
  }

  function RawLens(fs: seq<ArchiveFrame>): seq<nat> {
    seq(|fs|, k requires 0 <= k < |fs| => fs[k].rawLen)
  }

  /** Frames by the hash of their raw bytes: each hash found names one of them. */
  predicate ByRawOk(byRaw: map<Digest, nat>, fs: seq<ArchiveFrame>) {
    && (forall h :: h in byRaw ==> byRaw[h] < |fs| && fs[byRaw[h]].rawHash == h)
    && (forall k :: 0 <= k < |fs| ==> fs[k].rawHash in byRaw)
  }

  /** A bundle found by the key of some frames holds exactly those frames' bytes. */
  ghost predicate BundlesOk(env: Env, bundles: map<Bytes, Digest>) {
    forall g: Group :: FramesOk(env, g) && Key(g) in bundles ==> bundles[Key(g)] == env.hash(Body(env, g))
  }

  ghost predicate FramesIndexed(env: Env, ix: BaseIndex) {
    && FramesOk(env, ix.frames)
    && |ix.starts| == |ix.frames| + 1
    && (forall k :: 0 <= k < |ix.starts| ==> ix.starts[k] == Sum(RawLens(ix.frames)[..k]))
    && |ix.places| == |ix.frames|
    && ByRawOk(ix.byRaw, ix.frames)
    && BundlesOk(env, ix.bundles)
  }

  /** Each file's range of `claimed` is its blob. */
  ghost predicate FilesClaimed(env: Env, ix: BaseIndex, claimed: Bytes) {
    forall p :: p in ix.files ==>
      var f := ix.files[p];
      && f.start + f.len <= |claimed|
      && claimed[f.start..f.start + f.len] == env.blob(f.blob)
  }

  /** The bundle map while the frames of bundle `g` are being read. */
  ghost predicate BundlesFrom(bundles: map<Bytes, Digest>, gs: seq<Group>, names: seq<Digest>, g: nat)
  {
    && g <= |gs| == |names|
    && (forall i :: 0 <= i < g ==> Key(gs[i]) in bundles)
    && (forall key :: key in bundles ==> exists i :: 0 <= i < g && key == Key(gs[i]) && bundles[key] == names[i])
  }

  lemma BundlesFromOk(env: Env, bundles: map<Bytes, Digest>, a: Archive, gs: seq<Group>)
    requires Lawful(env) && GroupedBy(env, a, gs)
    requires BundlesFrom(bundles, gs, a.bundles, |gs|)
    ensures BundlesOk(env, bundles)
  {
    forall g: Group | FramesOk(env, g) && Key(g) in bundles
      ensures bundles[Key(g)] == env.hash(Body(env, g))
    {
      var i :| 0 <= i < |gs| && Key(g) == Key(gs[i]) && bundles[Key(g)] == a.bundles[i];
      GroupFramesOk(env, gs, i);
      KeyNamesBody(env, g, gs[i]);
    }
  }

  /** One frame further: the next key and, at the end of a bundle, the next map. */
  lemma BundlesStep(bundles: map<Bytes, Digest>, gs: seq<Group>, names: seq<Digest>, g: nat, j: nat)
    requires g < |gs| == |names| && j < |gs[g]|
    requires BundlesFrom(bundles, gs, names, g)
    ensures Key(gs[g][..j]) + gs[g][j].chunkHash == Key(gs[g][..j + 1])
    ensures j + 1 == |gs[g]| ==>
      gs[g][..j + 1] == gs[g] && BundlesFrom(bundles[Key(gs[g]) := names[g]], gs, names, g + 1)
  {
    assert gs[g][..j + 1][..j] == gs[g][..j];
    if j + 1 == |gs[g]| {
      var after := bundles[Key(gs[g]) := names[g]];
      forall key | key in after
        ensures exists i :: 0 <= i < g + 1 && key == Key(gs[i]) && after[key] == names[i]
      {
        if key == Key(gs[g]) {
          assert after[key] == names[g];
        } else {
          var i :| 0 <= i < g && key == Key(gs[i]) && bundles[key] == names[i];
        }
      }
    }
  }

  /** In a well-formed archive the last frame of a bundle is the one before a
      change of bundle index. */
  lemma LastInBundle(gs: seq<Group>, g: nat, j: nat)
    requires forall i :: 0 <= i < |gs| ==> gs[i] != []
    requires g < |gs| && j < |gs[g]|
    ensures |AllInfos(gs)| == |Concat(gs)|
    ensures var k := First(gs, g) + j;
      && k < |Concat(gs)|
      && AllInfos(gs)[k].chunkIndex == g
      && (j + 1 == |gs[g]| <==> k + 1 == |Concat(gs)| || AllInfos(gs)[k + 1].chunkIndex != g)
      && (j + 1 == |gs[g]| ==> First(gs, g + 1) == k + 1 && (g + 1 == |gs| ==> k + 1 == |Concat(gs)|))
  {
    hide AllInfos, Concat, GroupLen, First;
    InfoAt(gs, g, j);
    FirstNext(gs, g);
    if j + 1 < |gs[g]| {
      InfoAt(gs, g, j + 1);
    } else if g + 1 < |gs| {
      InfoAt(gs, g + 1, 0);
    }
  }

  /** The first `k` frames are listed. */
  ghost predicate Listed(base: Archive, k: nat, starts: seq<nat>, places: seq<Place>, byRaw: map<Digest, nat>,
                         pos: nat) {
    && k <= |base.frames|
    && |starts| == |places| == k
    && pos == Sum(RawLens(base.frames)[..k])
    && (forall i :: 0 <= i < k ==> starts[i] == Sum(RawLens(base.frames)[..i]))
    && ByRawOk(byRaw, base.frames[..k])
  }

  lemma ListedStart(base: Archive)
    ensures Listed(base, 0, [], [], map[], 0)
  {}

  lemma ListedNext(base: Archive, k: nat, starts: seq<nat>, places: seq<Place>, byRaw: map<Digest, nat>, pos: nat,
                   place: Place)
    requires Listed(base, k, starts, places, byRaw, pos) && k < |base.frames|
    ensures Listed(base, k + 1, starts + [pos], places + [place], byRaw[base.frames[k].rawHash := k],
      pos + base.frames[k].rawLen)
    ensures pos + base.frames[k].rawLen <= Sum(RawLens(base.frames))
  {
    SumNext(RawLens(base.frames), k);
    SumMonotone(RawLens(base.frames), k + 1, |base.frames|);
  }

  lemma ListedAll(env: Env, base: Archive, ix: BaseIndex, starts: seq<nat>, pos: nat)
    requires Listed(base, |base.frames|, starts, ix.places, ix.byRaw, pos)
    requires ix.frames == base.frames && ix.starts == starts + [pos]
    requires FramesOk(env, base.frames) && BundlesOk(env, ix.bundles)
    ensures FramesIndexed(env, ix)
    ensures pos == Sum(RawLens(base.frames))
  {
    assert base.frames[..|base.frames|] == base.frames;
    assert RawLens(base.frames)[..|base.frames|] == RawLens(base.frames);
  }

  /** Index the frames and bundles of `base`. The result is right when `base` is
      well-formed; any other base is refused or indexed as it is. */
  method IndexFrames(env: Env, base: Archive, ghost gs: seq<Group>)
    returns (r: Result<(BaseIndex, nat)>)
    requires Lawful(env)
    ensures r.Ok? ==> r.value.0.frames == base.frames
    ensures r.Ok? && GroupedBy(env, base, gs) ==>
      FramesIndexed(env, r.value.0) && r.value.1 == Sum(RawLens(base.frames))
    ensures r.Ok? && GroupedBy(env, base, gs) ==> BundlesFrom(r.value.0.bundles, gs, base.bundles, |gs|)
    ensures GroupedBy(env, base, gs) && Sum(RawLens(base.frames)) <= U64_MAX ==> r.Ok?
  {
    hide *;
    ghost var good := GroupedBy(env, base, gs);
    if good { CursorStart(env, base, gs); }
    var infos := base.metadata.frames;
    if |infos| != |base.frames| {
      return Err(BadBase);
    }
    var starts: seq<nat>, places: seq<Place>, key: Bytes, pos: nat := [], [], [], 0;
    var byRaw: map<Digest, nat>, bundles: map<Bytes, Digest> := map[], map[];
    ghost var g: nat, j: nat := 0, 0;
    ListedStart(base);
    for k := 0 to |infos|
      invariant Listed(base, k, starts, places, byRaw, pos)
      invariant good ==> Cursor(gs, k, g, j, key) && BundlesFrom(bundles, gs, base.bundles, g)
    {
      var frame, info := base.frames[k], infos[k];
      if good { CursorAt(env, base, gs, k, g, j, key); }
      if frame.compressedLen != info.compressedLen || frame.rawLen != info.rawLen {
        return Err(BadBase);
      }
      if info.chunkIndex >= |base.bundles| {
        return Err(BadBase);
      }
      var bundle := base.bundles[info.chunkIndex];
      ListedNext(base, k, starts, places, byRaw, pos, Place(bundle, info.chunkOffset));
      starts := starts + [pos];
      pos := pos + frame.rawLen;
      if pos > U64_MAX {
        return Err(BadBase);
      }
      places := places + [Place(bundle, info.chunkOffset)];
      byRaw := byRaw[frame.rawHash := k];
      key := key + frame.chunkHash;
      if good { BundlesStep(bundles, gs, base.bundles, g, j); }
      if k + 1 == |infos| || infos[k + 1].chunkIndex != info.chunkIndex {
        bundles := bundles[key := bundle];
        key := [];
        g, j := g + 1, 0;
      } else {
        j := j + 1;
      }
    }
    var ix := BaseIndex(base.frames, starts + [pos], places, byRaw, bundles, map[]);
    if good {
      CursorEnd(env, base, gs, g, j, key);
      BundlesFromOk(env, bundles, base, gs);
      ListedAll(env, base, ix, starts, pos);
    }
    return Ok((ix, pos));
  }

  /** The loop is at frame `j` of bundle `g`, with the keys of that bundle so far. */
  ghost predicate Cursor(gs: seq<Group>, k: nat, g: nat, j: nat, key: Bytes) {
    && g <= |gs|
    && k == First(gs, g) + j
    && (if g == |gs| then j == 0 && key == [] && k == |Concat(gs)| else j < |gs[g]| && key == Key(gs[g][..j]))
  }

  lemma CursorStart(env: Env, base: Archive, gs: seq<Group>)
    requires GroupedBy(env, base, gs)
    ensures |base.metadata.frames| == |base.frames|
    ensures |gs| == |base.bundles|
    ensures Cursor(gs, 0, 0, 0, []) && BundlesFrom(map[], gs, base.bundles, 0)
  {
    AllInfosLen(gs);
  }

  lemma CursorEnd(env: Env, base: Archive, gs: seq<Group>, g: nat, j: nat, key: Bytes)
    requires GroupedBy(env, base, gs) && Cursor(gs, |base.frames|, g, j, key)
    ensures g == |gs| && FramesOk(env, base.frames)
  {
    if g < |gs| {
      FirstNext(gs, g);
    }
  }

  lemma CursorAt(env: Env, base: Archive, gs: seq<Group>, k: nat, g: nat, j: nat, key: Bytes)
    requires GroupedBy(env, base, gs) && Cursor(gs, k, g, j, key) && k < |base.frames|
    ensures g < |gs| == |base.bundles| && j < |gs[g]| && k < |base.metadata.frames|
    ensures base.frames[k] == gs[g][j]
    ensures var info := base.metadata.frames[k];
      info == FrameInfo(g, info.chunkOffset, gs[g][j].compressedLen, gs[g][j].rawLen)
    ensures key == Key(gs[g][..j])
    ensures var last := k + 1 == |base.metadata.frames| || base.metadata.frames[k + 1].chunkIndex != g;
      && (last <==> j + 1 == |gs[g]|)
      && (last ==> Cursor(gs, k + 1, g + 1, 0, []))
      && (!last ==> Cursor(gs, k + 1, g, j + 1, Key(gs[g][..j + 1])))
  {
    InfoAt(gs, g, j);
    LastInBundle(gs, g, j);
  }

  /** Index the files of `base`: each starts where the lengths before it end. */
  method IndexFiles(base: Archive, rawTotal: nat) returns (r: Result<map<Bytes, BaseFile>>)
    ensures r.Ok? <==> Sum(FileLens(base.metadata.files)) == rawTotal && rawTotal <= U64_MAX
    ensures r.Ok? ==> forall p :: p in r.value ==> exists i :: IsEntry(base.metadata.files, i, p, r.value[p])
    ensures r.Ok? ==> forall i :: 0 <= i < |base.metadata.files| ==> base.metadata.files[i].path in r.value
  {
    var list := base.metadata.files;
    ghost var lens := FileLens(list);
    var files: map<Bytes, BaseFile> := map[];
    var pos := 0;
    for i := 0 to |list|
      invariant pos == Sum(lens[..i]) <= U64_MAX
      invariant forall p :: p in files ==> exists n :: IsEntry(list, n, p, files[p])
      invariant forall n :: 0 <= n < i ==> list[n].path in files
    {
      var file := list[i];
      var len := Length(file.fragments);
      SumNext(lens, i);
      SumMonotone(lens, i + 1, |lens|);
      assert IsEntry(list, i, file.path, BaseFile(file.blob, pos, len));
      files := files[file.path := BaseFile(file.blob, pos, len)];
      pos := pos + len;
      if pos > U64_MAX {
        return Err(BadBase);
      }
    }
    assert lens[..|lens|] == lens;
    if pos != rawTotal {
      return Err(BadBase);
    }
    return Ok(files);
  }

  ghost predicate IsEntry(files: seq<FileEntry>, i: nat, p: Bytes, f: BaseFile) {
    && i < |files| && files[i].path == p
    && f == BaseFile(files[i].blob, Sum(FileLens(files)[..i]), Length(files[i].fragments))
  }

  /** A frame starts where the raw lengths before it end. */
  lemma StartsAre(env: Env, fs: seq<ArchiveFrame>, k: nat)
    requires FramesOk(env, fs) && k <= |fs|
    ensures Sum(RawLens(fs)[..k]) == |Concat(Raws(env, fs)[..k])| <= |Concat(Raws(env, fs))|
    ensures Sum(RawLens(fs)) == |Concat(Raws(env, fs))|
  {
    var raws := Raws(env, fs);
    forall i | 0 <= i < |fs| ensures |raws[i]| == fs[i].rawLen {
      assert FrameOk(env, fs[i]);
    }
    assert RawLens(fs) == Lengths(raws);
    ConcatPrefixLength(raws, k);
    ConcatLength(raws);
  }

  /** The lengths in the table are the blobs'. */
  lemma SameLengths(env: Env, files: seq<FileEntry>, tree: seq<TreeFile>, raws: seq<Bytes>)
    requires FilesHold(env, files, tree, raws)
    ensures FileLens(files) == BlobSizes(env, tree)
    ensures Sum(FileLens(files)) == |Stream(env, tree)|
  {
    forall i | 0 <= i < |tree| ensures FileLens(files)[i] == BlobSizes(env, tree)[i] {
      assert FileHolds(env, files[i], tree[i], raws);
      ReadLength(files[i].fragments, raws);
    }
    assert FileLens(files) == BlobSizes(env, tree);
    ConcatLength(Contents(env, tree));
  }

  /** A file's blob is at its recovered range of the stream of the table's tree. */
  lemma ClaimedRange(env: Env, files: seq<FileEntry>, tree: seq<TreeFile>, raws: seq<Bytes>, i: nat)
    requires FilesHold(env, files, tree, raws) && i < |files|
    ensures files[i].blob == tree[i].oid
    ensures var start, len := Sum(FileLens(files)[..i]), Length(files[i].fragments);
      && start + len == Sum(FileLens(files)[..i + 1]) <= |Stream(env, tree)|
      && Stream(env, tree)[start..start + len] == env.blob(tree[i].oid)
  {
    SameLengths(env, files, tree, raws);
    assert FileHolds(env, files[i], tree[i], raws);
    ConcatPart(Contents(env, tree), i);
    ConcatPrefixLength(Contents(env, tree), i);
    ConcatPrefixLength(Contents(env, tree), i + 1);
    SumNext(FileLens(files), i);
    hide FileHolds, Read, InFrame, Concat, Sum, Length;
  }

  /** Every range recovered by summing lengths holds its file's blob. */
  ghost predicate RangesHold(env: Env, files: seq<FileEntry>, tree: seq<TreeFile>, raws: seq<Bytes>)
    requires |files| == |tree|
  {
    forall i :: 0 <= i < |files| ==> RangeHolds(env, files, tree, raws, i)
  }

  ghost predicate RangeHolds(env: Env, files: seq<FileEntry>, tree: seq<TreeFile>, raws: seq<Bytes>, i: nat)
    requires i < |files| == |tree|
  {
    var start, end := Sum(FileLens(files)[..i]), Sum(FileLens(files)[..i + 1]);
    start <= end <= |Concat(raws)| && Concat(raws)[start..end] == env.blob(tree[i].oid)
  }

  /** When the totals agree, the recovered ranges are right exactly when the frames
      hold the stream of the table's tree, in the table's order. */
  lemma RangesIff(env: Env, files: seq<FileEntry>, tree: seq<TreeFile>, raws: seq<Bytes>)
    requires FilesHold(env, files, tree, raws) && Sum(FileLens(files)) == |Concat(raws)|
    ensures RangesHold(env, files, tree, raws) <==> Concat(raws) == Stream(env, tree)
  {
    hide Concat, FileHolds, Length, RangeHolds, Sum;
    SameLengths(env, files, tree, raws);
    if Concat(raws) == Stream(env, tree) {
      forall i | 0 <= i < |files| ensures RangeHolds(env, files, tree, raws, i) {
        StreamRange(env, files, tree, raws, i);
      }
    } else if RangesHold(env, files, tree, raws) {
      RangesSpell(env, files, tree, raws, |files|);
      WholeStream(env, files, tree, raws);
    }
  }

  lemma StreamRange(env: Env, files: seq<FileEntry>, tree: seq<TreeFile>, raws: seq<Bytes>, i: nat)
    requires FilesHold(env, files, tree, raws) && i < |files| && Concat(raws) == Stream(env, tree)
    ensures RangeHolds(env, files, tree, raws, i)
  {
    hide Concat, FileHolds, Length, Sum;
    ClaimedRange(env, files, tree, raws, i);
  }

  lemma WholeStream(env: Env, files: seq<FileEntry>, tree: seq<TreeFile>, raws: seq<Bytes>)
    requires |files| == |tree| && Sum(FileLens(files)) == |Concat(raws)|
    requires Sum(FileLens(files)[..|files|]) <= |Concat(raws)|
    requires Concat(raws)[..Sum(FileLens(files)[..|files|])] == Concat(Contents(env, tree)[..|files|])
    ensures Concat(raws) == Stream(env, tree)
  {
    assert FileLens(files)[..|files|] == FileLens(files) && Contents(env, tree)[..|files|] == Contents(env, tree);
  }

  lemma {:induction false} RangesSpell(env: Env, files: seq<FileEntry>, tree: seq<TreeFile>, raws: seq<Bytes>, n: nat)
    requires |files| == |tree| && n <= |files| && RangesHold(env, files, tree, raws)
    ensures Sum(FileLens(files)[..n]) <= |Concat(raws)|
    ensures Concat(raws)[..Sum(FileLens(files)[..n])] == Concat(Contents(env, tree)[..n])
  {
    hide Concat, Length;
    if n == 0 {
      NothingSpelled(files, Contents(env, tree));
    } else {
      RangesSpell(env, files, tree, raws, n - 1);
      assert RangeHolds(env, files, tree, raws, n - 1);
      var parts := Contents(env, tree);
      ConcatSnoc(parts[..n - 1], parts[n - 1]);
      assert parts[..n - 1] + [parts[n - 1]] == parts[..n];
      var start, end := Sum(FileLens(files)[..n - 1]), Sum(FileLens(files)[..n]);
      assert Concat(raws)[..end] == Concat(raws)[..start] + Concat(raws)[start..end];
    }
  }

  lemma NothingSpelled(files: seq<FileEntry>, parts: seq<Bytes>)
    ensures Sum(FileLens(files)[..0]) == 0 && Concat(parts[..0]) == []
  {}

  /** Packed files are where their lengths say. */
  lemma PackedRanges(env: Env, files: seq<FileEntry>, tree: seq<TreeFile>, raws: seq<Bytes>)
    requires FilesHold(env, files, tree, raws) && Packed(files, raws)
    ensures Concat(raws) == Stream(env, tree)
  {
    hide Concat, FileHolds, Packed, Sum, Length;
    PackedTotal(files, raws);
    forall i | 0 <= i < |files| ensures RangeHolds(env, files, tree, raws, i) {
      PackedSlice(env, files, tree, raws, i);
      ClaimedRange(env, files, tree, raws, i);
    }
    RangesIff(env, files, tree, raws);
  }

  lemma PackedTotal(files: seq<FileEntry>, raws: seq<Bytes>)
    requires Packed(files, raws)
    ensures Sum(FileLens(files)) == |Concat(raws)|
  {}

  /** The base index: refused when the files' lengths and the frames' differ. Its
      ranges are those of the stream of the base's tree, in the base's order. */
  method NewBaseIndex(env: Env, base: Archive, ghost gs: seq<Group>, ghost tree: seq<TreeFile>)
    returns (r: Result<BaseIndex>)
    requires Lawful(env)
    ensures GroupedBy(env, base, gs) ==>
      (r.Ok? <==> Sum(FileLens(base.metadata.files)) == Sum(RawLens(base.frames)) <= U64_MAX)
    ensures r.Ok? ==> r.value.frames == base.frames
    ensures r.Ok? && GroupedBy(env, base, gs) ==>
      FramesIndexed(env, r.value) && BundlesFrom(r.value.bundles, gs, base.bundles, |gs|)
    ensures r.Ok? ==> forall p :: p in r.value.files ==>
      exists i :: IsEntry(base.metadata.files, i, p, r.value.files[p])
    ensures r.Ok? ==> forall i :: 0 <= i < |base.metadata.files| ==> base.metadata.files[i].path in r.value.files
    ensures r.Ok? && FilesHold(env, base.metadata.files, tree, Raws(env, base.frames)) ==>
      FilesClaimed(env, r.value, Stream(env, tree))
  {
    hide *;
    var indexed := IndexFrames(env, base, gs);
    if indexed.Err? {
      return Err(indexed.error);
    }
    var files := IndexFiles(base, indexed.value.1);
    if files.Err? {
      return Err(files.error);
    }
    var ix := indexed.value.0.(files := files.value);
    if GroupedBy(env, base, gs) {
      SameFramesIndexed(env, indexed.value.0, ix);
    }
    if FilesHold(env, base.metadata.files, tree, Raws(env, base.frames)) {
      RangesClaimed(env, base, tree, ix);
    }
    return Ok(ix);
  }

  lemma SameFramesIndexed(env: Env, a: BaseIndex, b: BaseIndex)
    requires FramesIndexed(env, a) && b == a.(files := b.files)
    ensures FramesIndexed(env, b)
  {}

  /** Summing lengths gives each file's range of the stream of the base's tree. */
  lemma RangesClaimed(env: Env, base: Archive, tree: seq<TreeFile>, ix: BaseIndex)
    requires FilesHold(env, base.metadata.files, tree, Raws(env, base.frames))
    requires forall p :: p in ix.files ==> exists i :: IsEntry(base.metadata.files, i, p, ix.files[p])
    ensures FilesClaimed(env, ix, Stream(env, tree))
  {
    hide Read, Sum, InFrame, FileHolds, Stream;
    forall p | p in ix.files
      ensures ix.files[p].start + ix.files[p].len <= |Stream(env, tree)|
      ensures Stream(env, tree)[ix.files[p].start..ix.files[p].start + ix.files[p].len] == env.blob(ix.files[p].blob)
    {
      var i: nat :| IsEntry(base.metadata.files, i, p, ix.files[p]);
      ClaimedRange(env, base.metadata.files, tree, Raws(env, base.frames), i);
    }
  }
}
