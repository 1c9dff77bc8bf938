/** What a well-formed archive is: frames in bundles, and files that read back
    as their blobs. */
module Archives {
  import opened Clonepack
  import opened Seqs
  import opened Fragments
  import opened Grouping

  /** What the builds rely on. SHA-256 is collision-free on the strings in
      `known` only; zstd decodes what it encodes and its frames are
      self-delimiting; chunking cuts a stream into nonempty parts. */
  ghost predicate Lawful(env: Env) {
    && (forall x :: |env.hash(x)| == DIGEST_WIDTH)
    && (forall x, y :: x in env.known && y in env.known && env.hash(x) == env.hash(y) ==> x == y)
    && (forall x :: x != [] ==> env.unzip(env.zip(x), |x|) == Some(x) && env.oneFrame(env.zip(x)))
    && (forall x, y :: env.oneFrame(x) && env.oneFrame(y) && x <= y ==> x == y)
    && !env.oneFrame([])
    && (forall x :: Sum(env.cut(x)) == |x| && (forall i :: 0 <= i < |env.cut(x)| ==> env.cut(x)[i] > 0))
  }

  /** An empty frame stays empty. */
  function ZipFrame(env: Env, raw: Bytes): Bytes {
    if raw == [] then [] else env.zip(raw)
  }

  function UnzipFrame(env: Env, comp: Bytes, rawLen: nat): Option<Bytes> {
    if |comp| == 0 && rawLen == 0 then Some([]) else env.unzip(comp, rawLen)
  }

  /** The known string a digest names. */
  ghost function Named(env: Env, d: Digest): Bytes {
    if exists x :: x in env.known && env.hash(x) == d
    then var x :| x in env.known && env.hash(x) == d; x
    else []
  }

  lemma NamedKnown(env: Env, x: Bytes)
    requires Lawful(env) && x in env.known
    ensures Named(env, env.hash(x)) == x
  {}

  ghost function Raw(env: Env, f: ArchiveFrame): Bytes { Named(env, f.rawHash) }

  ghost function Comp(env: Env, f: ArchiveFrame): Bytes { Named(env, f.chunkHash) }

  /** The frame's hashes and lengths are those of bytes that decode to one another. */
  ghost predicate FrameOk(env: Env, f: ArchiveFrame) {
    var raw, comp := Raw(env, f), Comp(env, f);
    && raw in env.known && comp in env.known
    && f == ArchiveFrame(env.hash(raw), env.hash(comp), |comp|, |raw|)
    && UnzipFrame(env, comp, |raw|) == Some(raw)
    && ((comp == [] && raw == []) || env.oneFrame(comp))
  }

  ghost predicate FramesOk(env: Env, fs: seq<ArchiveFrame>) {
    forall k :: 0 <= k < |fs| ==> FrameOk(env, fs[k])
  }

  ghost function Raws(env: Env, fs: seq<ArchiveFrame>): seq<Bytes> {
    seq(|fs|, k requires 0 <= k < |fs| => Raw(env, fs[k]))
  }

  ghost function Comps(env: Env, fs: seq<ArchiveFrame>): seq<Bytes> {
    seq(|fs|, k requires 0 <= k < |fs| => Comp(env, fs[k]))
  }

  /** A bundle's bytes: its frames' compressed bytes, end to end. */
  ghost function Body(env: Env, g: Group): Bytes {
    Concat(Comps(env, g))
  }

  lemma {:induction false} BodyLen(env: Env, g: Group)
    requires FramesOk(env, g)
    ensures |Body(env, g)| == GroupLen(g)
  {
    if g != [] {
      var front, last := g[..|g| - 1], g[|g| - 1];
      BodyLen(env, front);
      ConcatSnoc(Comps(env, front), Comp(env, last));
      assert Comps(env, g) == Comps(env, front) + [Comp(env, last)];
      assert FrameOk(env, last);
    }
  }

  /** Frame `j` of a bundle is at the compressed length of the frames before it. */
  lemma BodyPart(env: Env, g: Group, j: nat)
    requires FramesOk(env, g) && j < |g|
    ensures GroupLen(g[..j]) + g[j].compressedLen <= |Body(env, g)|
    ensures Body(env, g)[GroupLen(g[..j])..GroupLen(g[..j]) + g[j].compressedLen] == Comp(env, g[j])
  {
    var cs := Comps(env, g);
    ConcatPart(cs, j);
    BodyLen(env, g[..j]);
    assert Comps(env, g[..j]) == cs[..j];
    assert FrameOk(env, g[j]);
  }

  /** Where the frames of bundle `index` are in it. */
  function GroupInfos(g: Group, index: nat): seq<FrameInfo> {
    seq(|g|, j requires 0 <= j < |g| => FrameInfo(index, GroupLen(g[..j]), g[j].compressedLen, g[j].rawLen))
  }

  /** The frame table of the bundles. */
  function AllInfos(gs: seq<Group>): seq<FrameInfo> {
    if gs == [] then [] else AllInfos(gs[..|gs| - 1]) + GroupInfos(gs[|gs| - 1], |gs| - 1)
  }

  /** The index of bundle `g`'s first frame. */
  ghost function First(gs: seq<Group>, g: nat): nat
    requires g <= |gs|
  {
    |Concat(gs[..g])|
  }

  lemma FirstNext(gs: seq<Group>, g: nat)
    requires g < |gs|
    ensures First(gs, g + 1) == First(gs, g) + |gs[g]| <= |Concat(gs)|
    ensures First(gs, |gs|) == |Concat(gs)|
  {
    ConcatPart(gs, g);
    assert gs[..|gs|] == gs;
  }

  lemma {:induction false} AllInfosLen(gs: seq<Group>)
    ensures |AllInfos(gs)| == |Concat(gs)|
  {
    if gs != [] {
      AllInfosLen(gs[..|gs| - 1]);
      FirstNext(gs, |gs| - 1);
    }
  }

  lemma InFront(gs: seq<Group>, g: nat)
    requires g < |gs| - 1
    ensures First(gs[..|gs| - 1], g) == First(gs, g) && gs[..|gs| - 1][g] == gs[g]
  {
    assert gs[..|gs| - 1][..g] == gs[..g];
  }

  lemma FrameAtFirst(gs: seq<Group>, g: nat, j: nat)
    requires g < |gs| && j < |gs[g]|
    ensures First(gs, g) + j < |Concat(gs)| && Concat(gs)[First(gs, g) + j] == gs[g][j]
  {
    FirstNext(gs, g);
    ConcatPart(gs, g);
    assert Concat(gs)[First(gs, g)..First(gs, g + 1)][j] == gs[g][j];
  }

  lemma FrontLength(gs: seq<Group>)
    requires gs != []
    ensures |Concat(gs[..|gs| - 1])| == First(gs, |gs| - 1)
  {}

  lemma GroupInfosLen(g: Group, index: nat)
    ensures |GroupInfos(g, index)| == |g|
  {}

  /** The table's row for frame `j` of bundle `g`. */
  lemma {:induction false} InfoAt(gs: seq<Group>, g: nat, j: nat)
    requires g < |gs| && j < |gs[g]|
    ensures First(gs, g) + j < |AllInfos(gs)| == |Concat(gs)|
    ensures AllInfos(gs)[First(gs, g) + j] == GroupInfos(gs[g], g)[j]
    ensures Concat(gs)[First(gs, g) + j] == gs[g][j]
  {
    hide GroupInfos, First, Concat;
    var n := |gs| - 1;
    AllInfosLen(gs);
    AllInfosLen(gs[..n]);
    FrameAtFirst(gs, g, j);
    GroupInfosLen(gs[g], g);
    if g < n {
      InfoAt(gs[..n], g, j);
      InFront(gs, g);
    } else {
      FrontLength(gs);
    }
  }

  /** Every frame is in one bundle. */
  lemma {:induction false} Locate(gs: seq<Group>, k: nat) returns (g: nat, j: nat)
    requires k < |Concat(gs)|
    ensures g < |gs| && j < |gs[g]| && k == First(gs, g) + j
  {
    var n := |gs| - 1;
    FirstNext(gs, n);
    if k >= First(gs, n) {
      g, j := n, k - First(gs, n);
    } else {
      g, j := Locate(gs[..n], k);
      assert gs[..n][..g] == gs[..g];
    }
  }

  /** A bundle's frames are the archive's. */
  lemma GroupFramesOk(env: Env, gs: seq<Group>, g: nat)
    requires FramesOk(env, Concat(gs)) && g < |gs|
    ensures FramesOk(env, gs[g])
  {
    hide FrameOk;
    forall j | 0 <= j < |gs[g]| ensures FrameOk(env, gs[g][j]) {
      InfoAt(gs, g, j);
    }
  }

  /** The bundle has this name, its length fits its field, and a frame of no bytes
      has its bundle to itself. */
  ghost predicate BundleOk(env: Env, g: Group, name: Digest) {
    && g != [] && name == env.hash(Body(env, g)) && GroupLen(g) <= U64_MAX
    && (|g| == 1 || forall j :: 0 <= j < |g| ==> g[j].compressedLen > 0)
  }

  /** The archive's frames are those of the bundles `gs`, its table places them
      there, and its bundle hashes are those bundles'. */
  ghost predicate GroupedBy(env: Env, a: Archive, gs: seq<Group>) {
    && a.frames == Concat(gs)
    && a.metadata.frames == AllInfos(gs)
    && |a.bundles| == |gs|
    && (forall g :: 0 <= g < |gs| ==> BundleOk(env, gs[g], a.bundles[g]))
    && FramesOk(env, a.frames)
  }

  ghost predicate Grouped(env: Env, a: Archive) {
    exists gs :: GroupedBy(env, a, gs)
  }

  /** The entry stands for `file` and reads back as its blob. */
  ghost predicate FileHolds(env: Env, entry: FileEntry, file: TreeFile, raws: seq<Bytes>) {
    && entry.path == file.path && entry.mode == file.mode && entry.blob == file.oid
    && entry.fragments != []
    && (forall i :: 0 <= i < |entry.fragments| ==> InFrame(entry.fragments[i], raws))
    && Read(entry.fragments, raws) == env.blob(file.oid)
  }

  ghost predicate FilesHold(env: Env, files: seq<FileEntry>, tree: seq<TreeFile>, raws: seq<Bytes>) {
    && |files| == |tree|
    && forall i :: 0 <= i < |tree| ==> FileHolds(env, files[i], tree[i], raws)
  }

  /** The archive is exactly the tree. */
  ghost predicate Sound(env: Env, a: Archive, tree: seq<TreeFile>, gitlinks: seq<Bytes>) {
    && Grouped(env, a)
    && a.metadata.gitlinks == gitlinks
    && FilesHold(env, a.metadata.files, tree, Raws(env, a.frames))
  }

  /** Where each frame is in the stream the frames make up. */
  ghost function BoundsOf(raws: seq<Bytes>): Bounds {
    seq(|raws|, k requires 0 <= k < |raws| => Range(|Concat(raws[..k])|, |Concat(raws[..k + 1])|))
  }

  lemma BoundsTile(raws: seq<Bytes>)
    requires raws != []
    ensures FramesOf(raws, BoundsOf(raws), Concat(raws))
  {
    BoundsCount(raws);
    hide BoundsOf, Concat;
    forall k | 0 <= k < |raws|
      ensures BoundsOf(raws)[k].lo <= BoundsOf(raws)[k].hi <= |Concat(raws)|
      ensures raws[k] == Concat(raws)[BoundsOf(raws)[k].lo..BoundsOf(raws)[k].hi]
    {
      BoundAt(raws, k);
    }
    forall j, k | 0 <= j < k < |raws| && k == j + 1 ensures BoundsOf(raws)[j].hi == BoundsOf(raws)[k].lo {
      BoundAt(raws, j);
      BoundAt(raws, k);
    }
    BoundAt(raws, 0);
    BoundAt(raws, |raws| - 1);
    assert raws[..|raws|] == raws;
  }

  lemma BoundsCount(raws: seq<Bytes>)
    ensures |BoundsOf(raws)| == |raws|
  {}

  lemma BoundAt(raws: seq<Bytes>, k: nat)
    requires k < |raws| == |BoundsOf(raws)|
    ensures BoundsOf(raws)[k] == Range(|Concat(raws[..k])|, |Concat(raws[..k + 1])|)
    ensures BoundsOf(raws)[k].lo <= BoundsOf(raws)[k].hi <= |Concat(raws)|
    ensures raws[k] == Concat(raws)[BoundsOf(raws)[k].lo..BoundsOf(raws)[k].hi]
    ensures k == 0 ==> BoundsOf(raws)[k].lo == 0
  {
    ConcatPart(raws, k);
  }

  function FileLens(files: seq<FileEntry>): seq<nat> {
    seq(|files|, i requires 0 <= i < |files| => Length(files[i].fragments))
  }

  /** The files, in order, take up the stream end to end. */
  ghost predicate Packed(files: seq<FileEntry>, raws: seq<Bytes>) {
    && Sum(FileLens(files)) == |Concat(raws)|
    && forall i :: 0 <= i < |files| && Length(files[i].fragments) > 0 ==>
         var start := Sum(FileLens(files)[..i]);
         Spells(files[i].fragments, BoundsOf(raws), start, start + Length(files[i].fragments))
  }

  lemma {:induction false} ReadLength(frags: seq<Fragment>, raws: seq<Bytes>)
    requires forall i :: 0 <= i < |frags| ==> InFrame(frags[i], raws)
    ensures |Read(frags, raws)| == Length(frags)
  {
    if frags != [] {
      ReadLength(frags[1..], raws);
    }
  }

  lemma SomeFrames(raws: seq<Bytes>)
    ensures Concat(raws) == [] || raws != []
  {}

  /** In a packed archive each file's blob is the stream's slice at the sum of
      the lengths before it. */
  lemma PackedSlice(env: Env, files: seq<FileEntry>, tree: seq<TreeFile>, raws: seq<Bytes>, i: nat)
    requires FilesHold(env, files, tree, raws) && Packed(files, raws)
    requires i < |files|
    ensures var start, len := Sum(FileLens(files)[..i]), Length(files[i].fragments);
      && start + len <= |Concat(raws)|
      && Concat(raws)[start..start + len] == env.blob(tree[i].oid)
  {
    hide Concat, Sum, Length, Read, Spells, BoundsOf, FramesOf, InFrame;
    var frags := files[i].fragments;
    var start := Sum(FileLens(files)[..i]);
    assert FileHolds(env, files[i], tree[i], raws);
    ReadLength(frags, raws);
    SumNext(FileLens(files), i);
    SumMonotone(FileLens(files), i + 1, |files|);
    if Length(frags) > 0 {
      SomeFrames(raws);
      BoundsTile(raws);
      SpelledBytes(frags, BoundsOf(raws), raws, Concat(raws), start, start + Length(frags));
    }
  }
}
