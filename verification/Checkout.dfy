/** From an archive back to the tree: the table is valid, every frame decodes to
    its bytes, and the writers leave exactly the tree. */
module Checkouts {
  import opened Clonepack
  import opened Seqs
  import opened Fragments
  import opened Grouping
  import opened Archives
  import opened Manifests
  import opened Chunks
  import opened Extracts
  import opened Schedules

  ghost predicate TreeFileOk(env: Env, f: TreeFile, safe: Bytes -> bool) {
    && AllowedMode(f.mode) && f.path != [] && safe(f.path)
    && |f.oid| == 20 && env.blobId(env.blob(f.oid)) == f.oid
  }

  function TreePaths(tree: seq<TreeFile>, gitlinks: seq<Bytes>): seq<Bytes> {
    seq(|tree|, i requires 0 <= i < |tree| => tree[i].path) + gitlinks
  }

  /** A tree git can check out: each path once, each blob under its id. */
  ghost predicate TreeOk(env: Env, tree: seq<TreeFile>, gitlinks: seq<Bytes>, safe: Bytes -> bool) {
    && (forall i :: 0 <= i < |tree| ==> TreeFileOk(env, tree[i], safe))
    && (forall i :: 0 <= i < |gitlinks| ==> gitlinks[i] != [] && safe(gitlinks[i]))
    && Distinct(TreePaths(tree, gitlinks))
  }

  ghost predicate GroupsOk(gs: seq<Group>) {
    forall g :: 0 <= g < |gs| ==> gs[g] != [] && GroupLen(gs[g]) <= U64_MAX
  }

  /** Frame `j` lies between the lengths of the frames before it and through it. */
  lemma InfoEnds(g: Group, index: nat, j: nat)
    requires j < |g|
    ensures GroupInfos(g, index)[j].chunkOffset == GroupLen(g[..j])
    ensures End(GroupInfos(g, index)[j]) == GroupLen(g[..j + 1]) <= GroupLen(g)
    ensures j == 0 ==> GroupLen(g[..j]) == 0
  {
    GroupLenNext(g, j);
    GroupLenFront(g, j + 1);
    GroupLenFront(g, 0);
    hide GroupLen;
  }

  /** A bundle's frames follow one another from its start to its end. */
  lemma GroupChained(g: Group, index: nat)
    requires g != [] && GroupLen(g) <= U64_MAX
    ensures var fs := GroupInfos(g, index);
      && fs[0].chunkOffset == 0 && End(fs[|fs| - 1]) == GroupLen(g)
      && (forall j, k :: 0 <= j < k < |fs| && k == j + 1 ==> Follows(fs[j], fs[k]))
      && (forall k :: 0 <= k < |fs| ==> End(fs[k]) <= U64_MAX && fs[k].chunkIndex == index)
  {
    hide GroupLen, End;
    var fs := GroupInfos(g, index);
    forall k | 0 <= k < |fs| ensures End(fs[k]) <= U64_MAX && fs[k].chunkIndex == index {
      InfoEnds(g, index, k);
    }
    forall j, k | 0 <= j < k < |fs| && k == j + 1 ensures Follows(fs[j], fs[k]) {
      InfoEnds(g, index, j);
      InfoEnds(g, index, k);
    }
    InfoEnds(g, index, 0);
    InfoEnds(g, index, |g| - 1);
    assert g[..|g|] == g;
  }

  /** The frame table of the bundles is contiguous in bundle order. */
  lemma {:induction false} AllChained(gs: seq<Group>)
    requires GroupsOk(gs)
    ensures Chained(AllInfos(gs))
    ensures gs != [] ==> AllInfos(gs) != [] && AllInfos(gs)[|AllInfos(gs)| - 1].chunkIndex == |gs| - 1
    ensures gs == [] ==> AllInfos(gs) == []
  {
    hide GroupLen, GroupInfos, Chained, Follows, End;
    if gs == [] {
      NoChain();
    } else {
      var n := |gs| - 1;
      AllChained(gs[..n]);
      GroupInfosLen(gs[n], n);
      GroupChained(gs[n], n);
      var a, b := AllInfos(gs[..n]), GroupInfos(gs[n], n);
      assert n == 0 ==> gs[..n] == [];
      ChainAppend(a, b, n);
    }
  }

  lemma NoChain()
    ensures Chained([])
  {}

  lemma ChainAppend(a: seq<FrameInfo>, b: seq<FrameInfo>, n: nat)
    requires Chained(a) && b != [] && b[0].chunkOffset == 0
    requires if n == 0 then a == [] else a != [] && a[|a| - 1].chunkIndex == n - 1
    requires forall j, k :: 0 <= j < k < |b| && k == j + 1 ==> Follows(b[j], b[k])
    requires forall k :: 0 <= k < |b| ==> End(b[k]) <= U64_MAX && b[k].chunkIndex == n
    ensures Chained(a + b) && (a + b)[|a + b| - 1].chunkIndex == n
  {
    var c := a + b;
    forall j, k | 0 <= j < k < |c| && k == j + 1 ensures Follows(c[j], c[k]) {
      if k < |a| {
        assert Follows(a[j], a[k]);
      } else if j >= |a| {
        assert Follows(b[j - |a|], b[k - |a|]);
      }
    }
  }

  /** A bundle's length comes from its own last frame. */
  lemma {:induction false} LengthAppend(a: seq<FrameInfo>, b: seq<FrameInfo>, n: nat, g: nat)
    requires forall k :: 0 <= k < |b| ==> b[k].chunkIndex == n
    ensures LengthOf(a + b, g) == if g == n && b != [] then End(b[|b| - 1]) else LengthOf(a, g)
  {
    if b == [] {
      assert a + b == a;
    } else {
      LengthAppend(a, b[..|b| - 1], n, g);
      assert (a + b)[..|a + b| - 1] == a + b[..|b| - 1];
    }
  }

  /** The length read from the table is the bundle's. */
  lemma {:induction false} LengthOfBundle(gs: seq<Group>, g: nat)
    requires GroupsOk(gs) && g < |gs|
    ensures LengthOf(AllInfos(gs), g) == GroupLen(gs[g])
  {
    hide GroupLen, GroupInfos;
    var n := |gs| - 1;
    GroupInfosLen(gs[n], n);
    GroupChained(gs[n], n);
    LengthAppend(AllInfos(gs[..n]), GroupInfos(gs[n], n), n, g);
    if g < n {
      LengthOfBundle(gs[..n], g);
    }
  }

  /** `ArchiveChunkLengths` of a well-formed archive: one length per bundle, and
      each is the bundle's real one. */
  method BundleLengths(env: Env, a: Archive, safe: Bytes -> bool, ghost gs: seq<Group>)
    returns (lengths: Result<seq<nat>>)
    requires GroupedBy(env, a, gs) && GeometryOk(a.metadata, safe)
    ensures lengths.Ok? && |lengths.value| == |a.bundles|
    ensures forall g :: 0 <= g < |a.bundles| ==> lengths.value[g] == |Body(env, gs[g])|
  {
    lengths := ArchiveChunkLengths(a.metadata, safe);
    hide GroupLen, AllInfos, FrameOk, Body, LengthOf, Chained, FileOk, Distinct;
    AllChained(gs);
    forall g | 0 <= g < |gs| ensures LengthOf(a.metadata.frames, g) == |Body(env, gs[g])| {
      LengthOfBundle(gs, g);
      GroupFramesOk(env, gs, g);
      BodyLen(env, gs[g]);
    }
  }

  /** The table gives each frame the length its bytes have. */
  lemma InfoLens(env: Env, gs: seq<Group>, k: nat)
    requires FramesOk(env, Concat(gs)) && k < |Concat(gs)|
    ensures k < |AllInfos(gs)| && AllInfos(gs)[k].rawLen == |Raw(env, Concat(gs)[k])|
  {
    var g, j := Locate(gs, k);
    InfoAt(gs, g, j);
    assert FrameOk(env, Concat(gs)[k]);
  }

  /** A fragment that lies in its frame's bytes lies in the frame the table lists. */
  lemma EntryOk(env: Env, entry: FileEntry, file: TreeFile, gs: seq<Group>, safe: Bytes -> bool)
    requires FramesOk(env, Concat(gs)) && TreeFileOk(env, file, safe) && entry.fragments != []
    requires entry.path == file.path && entry.mode == file.mode && entry.blob == file.oid
    requires forall i :: 0 <= i < |entry.fragments| ==> InFrame(entry.fragments[i], Raws(env, Concat(gs)))
    ensures FileOk(entry, AllInfos(gs), safe)
  {
    hide Concat, AllInfos, Raw;
    forall i | 0 <= i < |entry.fragments| ensures FragmentInside(entry.fragments[i], AllInfos(gs)) {
      assert InFrame(entry.fragments[i], Raws(env, Concat(gs)));
      InfoLens(env, gs, entry.fragments[i].frameIndex);
    }
  }

  /** A sound archive of a tree has a valid table. */
  lemma SoundIsValid(env: Env, a: Archive, tree: seq<TreeFile>, gitlinks: seq<Bytes>, safe: Bytes -> bool)
    requires Sound(env, a, tree, gitlinks) && TreeOk(env, tree, gitlinks, safe)
    ensures GeometryOk(a.metadata, safe)
  {
    hide Concat, AllInfos, FileHolds, FileOk, TreeFileOk, Raws, Body, GroupLen, Chained, FrameOk;
    var gs :| GroupedBy(env, a, gs);
    AllChained(gs);
    forall i | 0 <= i < |tree|
      ensures FileOk(a.metadata.files[i], a.metadata.frames, safe) && a.metadata.files[i].path == tree[i].path
    {
      HeldShape(env, a.metadata.files[i], tree[i], Raws(env, a.frames));
      EntryOk(env, a.metadata.files[i], tree[i], gs, safe);
    }
    assert Paths(a.metadata) == TreePaths(tree, gitlinks);
  }

  lemma HeldShape(env: Env, entry: FileEntry, file: TreeFile, raws: seq<Bytes>)
    requires FileHolds(env, entry, file, raws)
    ensures entry.path == file.path && entry.mode == file.mode && entry.blob == file.oid && entry.fragments != []
    ensures forall i :: 0 <= i < |entry.fragments| ==> InFrame(entry.fragments[i], raws)
  {}

  /** What a fetcher and a writer do with one frame of a fetched chunk: slice its
      bytes out and decompress them. */
  function DecodeFrame(env: Env, bytes: Bytes, chunk: Chunk, frame: FrameInfo): Result<Bytes> {
    var comp := SliceFrame(bytes, chunk, frame);
    if comp.Err? then comp else
      var raw := UnzipFrame(env, comp.value, frame.rawLen);
      if raw.None? || |raw.value| != frame.rawLen then Err(BadGeometry) else Ok(raw.value)
  }

  /** Bundles fetched under the archive's hashes. The bundles' own bytes and the
      fetched ones are among the strings SHA-256 tells apart. */
  ghost predicate Fetched(env: Env, a: Archive, gs: seq<Group>, bodies: seq<Bytes>) {
    && |bodies| == |a.bundles| == |gs|
    && forall g :: 0 <= g < |bodies| ==>
       bodies[g] in env.known && Body(env, gs[g]) in env.known && env.hash(bodies[g]) == a.bundles[g]
  }

  lemma FetchedBody(env: Env, a: Archive, gs: seq<Group>, bodies: seq<Bytes>, g: nat)
    requires Lawful(env) && GroupedBy(env, a, gs) && Fetched(env, a, gs, bodies) && g < |gs|
    ensures g < |bodies| && bodies[g] == Body(env, gs[g])
  {
    hide FramesOk, AllInfos, Concat, GroupLen, Body;
  }

  /** Every frame, cut from whichever chunk it is fetched in, decodes to its bytes. */
  lemma FrameDecodes(env: Env, a: Archive, gs: seq<Group>, bodies: seq<Bytes>, c: Chunk, k: nat)
    requires Lawful(env) && GroupedBy(env, a, gs) && Fetched(env, a, gs, bodies)
    requires ChunkOk(c, a.metadata.frames) && c.startFrame <= k < c.endFrame
    ensures c.chunkIndex < |bodies| && c.byteStart <= c.byteEnd <= |bodies[c.chunkIndex]|
    ensures k < |a.frames|
      && DecodeFrame(env, bodies[c.chunkIndex][c.byteStart..c.byteEnd], c, a.metadata.frames[k]) ==
      Ok(Raw(env, a.frames[k]))
  {
    hide *;
    GroupedFacts(env, a, gs);
    AllChained(gs);
    AllInfosLen(gs);
    var g := ChunkInBundle(env, gs, c, k);
    FetchedBody(env, a, gs, bodies, g);
    SliceExact(AllInfos(gs), c, k, bodies[g]);
    FrameBytes(env, gs, k, g);
    Decodes(env, bodies[g][c.byteStart..c.byteEnd], c, AllInfos(gs)[k], Concat(gs)[k]);
  }

  lemma GroupedFacts(env: Env, a: Archive, gs: seq<Group>)
    requires GroupedBy(env, a, gs)
    ensures a.frames == Concat(gs) && a.metadata.frames == AllInfos(gs) && FramesOk(env, Concat(gs)) && GroupsOk(gs)
  {}

  /** A chunk lies within one bundle. */
  lemma ChunkInBundle(env: Env, gs: seq<Group>, c: Chunk, k: nat) returns (g: nat)
    requires FramesOk(env, Concat(gs)) && GroupsOk(gs) && Chained(AllInfos(gs))
    requires ChunkOk(c, AllInfos(gs)) && c.startFrame <= k < c.endFrame
    ensures k < |Concat(gs)| == |AllInfos(gs)| && g < |gs| && c.chunkIndex == g == AllInfos(gs)[k].chunkIndex
    ensures c.byteEnd <= |Body(env, gs[g])|
  {
    hide Concat, AllInfos, FrameOk, Body, GroupLen, Chained;
    AllInfosLen(gs);
    var last := c.endFrame - 1;
    var j;
    g, j := Locate(gs, last);
    InfoAt(gs, g, j);
    GroupFramesOk(env, gs, g);
    BodyPart(env, gs[g], j);
  }

  /** A frame's place in the table is its place in the bundle's bytes. */
  lemma FrameBytes(env: Env, gs: seq<Group>, k: nat, g: nat)
    requires FramesOk(env, Concat(gs)) && k < |Concat(gs)| == |AllInfos(gs)| && g < |gs|
      && AllInfos(gs)[k].chunkIndex == g
    ensures End(AllInfos(gs)[k]) <= |Body(env, gs[g])|
    ensures Body(env, gs[g])[AllInfos(gs)[k].chunkOffset..End(AllInfos(gs)[k])] == Comp(env, Concat(gs)[k])
    ensures AllInfos(gs)[k].rawLen == Concat(gs)[k].rawLen && FrameOk(env, Concat(gs)[k])
  {
    hide Concat, AllInfos, FrameOk, Body, GroupLen;
    var n, j := Locate(gs, k);
    InfoAt(gs, n, j);
    GroupFramesOk(env, gs, n);
    BodyPart(env, gs[n], j);
  }

  lemma Decodes(env: Env, bytes: Bytes, c: Chunk, info: FrameInfo, f: ArchiveFrame)
    requires FrameOk(env, f) && info.rawLen == f.rawLen
    requires SliceFrame(bytes, c, info) == Ok(Comp(env, f))
    ensures DecodeFrame(env, bytes, c, info) == Ok(Raw(env, f))
  {
    hide Named;
  }

  /** Fetch the bundles in chunks of at most `size` bytes and decode every frame. */
  method DecodeAll(env: Env, a: Archive, bodies: seq<Bytes>, size: nat, ghost gs: seq<Group>)
    returns (r: Result<seq<Bytes>>)
    requires Lawful(env) && GroupedBy(env, a, gs) && Fetched(env, a, gs, bodies)
    ensures r == Ok(Raws(env, a.frames))
  {
    hide *;
    GroupedFacts(env, a, gs);
    AllChained(gs);
    AllInfosLen(gs);
    var chunks := ComputeChunks(a.metadata.frames, size);
    var raws: seq<Bytes> := [];
    RawsStart(env, a.frames);
    for i := 0 to |chunks|
      invariant CoverUpTo(chunks, |a.frames|) && ChunksOk(chunks, a.metadata.frames, size)
      invariant |raws| <= |a.frames| && raws == Raws(env, a.frames)[..|raws|]
      invariant |raws| == if i == 0 then 0 else chunks[i - 1].endFrame
      invariant |Raws(env, a.frames)| == |a.frames|
    {
      var c := chunks[i];
      CoverAt(chunks, a.metadata.frames, size, i);
      for k := c.startFrame to c.endFrame
        invariant |raws| == k && raws == Raws(env, a.frames)[..k]
      {
        FrameDecodes(env, a, gs, bodies, c, k);
        var raw := DecodeFrame(env, bodies[c.chunkIndex][c.byteStart..c.byteEnd], c, a.metadata.frames[k]);
        RawsAt(env, a.frames, k);
        raws := raws + [raw.value];
      }
    }
    CoverEnd(chunks, |a.frames|);
    assert Raws(env, a.frames)[..|a.frames|] == Raws(env, a.frames);
    return Ok(raws);
  }

  lemma RawsStart(env: Env, fs: seq<ArchiveFrame>)
    ensures |Raws(env, fs)| == |fs| && Raws(env, fs)[..0] == []
  {}

  lemma RawsAt(env: Env, fs: seq<ArchiveFrame>, k: nat)
    requires k < |fs|
    ensures |Raws(env, fs)| == |fs| && Raws(env, fs)[..k + 1] == Raws(env, fs)[..k] + [Raw(env, fs[k])]
  {}

  lemma CoverAt(chunks: seq<Chunk>, frames: seq<FrameInfo>, size: nat, i: nat)
    requires CoverUpTo(chunks, |frames|) && ChunksOk(chunks, frames, size) && i < |chunks|
    ensures ChunkOk(chunks[i], frames) && chunks[i].startFrame < chunks[i].endFrame <= |frames|
    ensures chunks[i].startFrame == if i == 0 then 0 else chunks[i - 1].endFrame
  {}

  lemma CoverEnd(chunks: seq<Chunk>, n: nat)
    requires CoverUpTo(chunks, n)
    ensures n == if chunks == [] then 0 else chunks[|chunks| - 1].endFrame
  {}

  /** The file written is the tree's. */
  ghost predicate IsTreeFile(env: Env, files: seq<FileEntry>, tree: seq<TreeFile>, w: Written) {
    && w.file < |files| == |tree|
    && files[w.file].path == tree[w.file].path && files[w.file].mode == tree[w.file].mode
    && w.content == env.blob(tree[w.file].oid)
  }

  /** Every file of the tree, once, with its blob's bytes, and nothing else. */
  ghost predicate Exactly(env: Env, files: seq<FileEntry>, tree: seq<TreeFile>, written: seq<Written>) {
    && |written| == |files| == |tree|
    && (forall n :: 0 <= n < |written| ==> IsTreeFile(env, files, tree, written[n]))
    && (forall m, n :: 0 <= m < n < |written| ==> written[m].file != written[n].file)
  }

  lemma HeldIsGood(env: Env, files: seq<FileEntry>, tree: seq<TreeFile>, gitlinks: seq<Bytes>, raws: seq<Bytes>,
                   safe: Bytes -> bool)
    requires FilesHold(env, files, tree, raws) && TreeOk(env, tree, gitlinks, safe)
    ensures Good(env, files, raws)
  {
    hide Read;
    forall i | 0 <= i < |files| ensures GoodFile(env, files[i], raws) {
      assert FileHolds(env, files[i], tree[i], raws) && TreeFileOk(env, tree[i], safe);
    }
  }

  lemma WholeIsTree(env: Env, files: seq<FileEntry>, tree: seq<TreeFile>, raws: seq<Bytes>, w: Written)
    requires FilesHold(env, files, tree, raws) && WholeFile(files, raws, w)
    ensures IsTreeFile(env, files, tree, w)
  {
    assert FileHolds(env, files[w.file], tree[w.file], raws);
  }

  lemma AllTree(env: Env, files: seq<FileEntry>, tree: seq<TreeFile>, raws: seq<Bytes>, written: seq<Written>)
    requires FilesHold(env, files, tree, raws) && |written| == |files|
    requires forall m, n :: 0 <= m < n < |files| ==> written[m].file != written[n].file
    requires forall n :: 0 <= n < |files| ==> WholeFile(files, raws, written[n])
    ensures Exactly(env, files, tree, written)
  {
    hide WholeFile, IsTreeFile;
    forall n | 0 <= n < |written| ensures IsTreeFile(env, files, tree, written[n]) {
      WholeIsTree(env, files, tree, raws, written[n]);
    }
    hide FileHolds;
  }

  lemma SoundHolds(env: Env, a: Archive, tree: seq<TreeFile>, gitlinks: seq<Bytes>)
    requires Sound(env, a, tree, gitlinks)
    ensures FilesHold(env, a.metadata.files, tree, Raws(env, a.frames))
  {}

  /** An error ends the run. */
  lemma {:induction false} RunStops(env: Env, files: seq<FileEntry>, raws: seq<Bytes>, order: seq<Ref>, n: nat)
    requires forall k :: 0 <= k < |order| ==> IsRef(files, order[k])
    requires n <= |order| && Run(env, files, raws, order[..n]).Err?
    ensures Run(env, files, raws, order) == Run(env, files, raws, order[..n])
  {
    if n == |order| {
      assert order[..n] == order;
    } else {
      assert order[..|order| - 1][..n] == order[..n];
      RunStops(env, files, raws, order[..|order| - 1], n);
    }
  }

  /** The writers' turns, one after the other. */
  method RunWriters(env: Env, files: seq<FileEntry>, raws: seq<Bytes>, order: seq<Ref>) returns (r: Result<State>)
    requires forall k :: 0 <= k < |order| ==> IsRef(files, order[k])
    ensures r == Run(env, files, raws, order)
  {
    hide Take, Start;
    var writer := new Writer(env, files, raws);
    for n := 0 to |order|
      invariant writer.env == env && writer.files == files && writer.raws == raws
      invariant Run(env, files, raws, order[..n]) == Ok(writer.state)
    {
      assert order[..n + 1][..n] == order[..n];
      var step := writer.TakeFragment(order[n]);
      if step.Err? {
        RunStops(env, files, raws, order, n + 1);
        return Err(step.error);
      }
    }
    assert order[..|order|] == order;
    return Ok(writer.state);
  }

  /** Run the writers by a schedule. Whatever the chunk size and however the
      writers interleave, a sound archive is checked out as exactly its tree. */
  method Checkout(env: Env, a: Archive, bodies: seq<Bytes>, size: nat, safe: Bytes -> bool, order: seq<Ref>,
                  ghost sched: seq<nat>, ghost gs: seq<Group>, ghost tree: seq<TreeFile>, ghost gitlinks: seq<Bytes>)
    returns (r: Result<seq<Written>>)
    requires Lawful(env) && GroupedBy(env, a, gs) && Fetched(env, a, gs, bodies)
    requires Sound(env, a, tree, gitlinks) && TreeOk(env, tree, gitlinks, safe)
    requires FullSchedule(Queues(a.metadata.files, AllRefs(a.metadata.files), |a.frames|), sched)
    requires order == Merge(Queues(a.metadata.files, AllRefs(a.metadata.files), |a.frames|), sched)
    ensures r.Ok? && Exactly(env, a.metadata.files, tree, r.value)
  {
    hide *;
    SoundIsValid(env, a, tree, gitlinks, safe);
    var valid := ValidateGeometry(a.metadata, safe);
    var decoded := DecodeAll(env, a, bodies, size, gs);
    var raws := decoded.value;
    RawsStart(env, a.frames);
    var files := a.metadata.files;
    SoundHolds(env, a, tree, gitlinks);
    HeldIsGood(env, files, tree, gitlinks, raws, safe);
    Confluence(env, files, raws, sched);
    var done := RunWriters(env, files, raws, order);
    AllTree(env, files, tree, raws, done.value.written);
    return Ok(done.value.written);
  }
}
