/** A commit's Files result and the builds that chain one to the next
    (rust/src/server/builder.rs, `build_files_result`, `store_table` and
    `load_metadata`; rust/src/lib.rs, `FilesResult`). */
module FilesResults {
  import opened Clonepack
  import opened Seqs
  import opened Fragments
  import opened Layouts
  import opened Grouping
  import opened Archives
  import opened Manifests
  import opened BaseIndexes
  import opened Bundlers
  import opened Streams
  import opened Builds
  import opened Tails
  import opened Extracts
  import opened Schedules
  import opened Checkouts
  import opened Listings
  import opened Deltas
  import opened DeltaOrders
  import opened DeltaStreams
  import opened FrameMaps

  const TAIL_PERCENT: nat := 25
  const MAX_TAILS: nat := 32
  const BUNDLE_SIZE: nat := 4 * 1024 * 1024

  /** A whole table, or the changes from one. */
  datatype StoredTable = StoredTable(base: Metadata, delta: Option<MetadataDelta>)

  /** A tail remembers in `compact` the packed build under it; a packed build has
      none. */
  datatype FilesResult = FilesResult(frames: seq<ArchiveFrame>, bundles: seq<Digest>, table: StoredTable,
                                     compact: Option<FilesResult>)

  function Compact(r: FilesResult): FilesResult {
    if r.compact.Some? then r.compact.value else r
  }

  /** The table as later builds and clients read it. */
  ghost function Loaded(t: StoredTable, safe: Bytes -> bool): Result<Metadata> {
    if !GeometryOk(t.base, safe) then Err(BadGeometry)
    else if t.delta.None? then Ok(t.base)
    else Applied(t.delta.value, t.base, safe)
  }

  /** `readable`: the stores still have the artifacts. */
  method LoadMetadata(t: StoredTable, readable: bool, safe: Bytes -> bool) returns (r: Option<Metadata>)
    ensures r == if readable && Loaded(t, safe).Ok? then Some(Loaded(t, safe).value) else None
  {
    hide GeometryOk, Applied;
    if !readable {
      return None;
    }
    var valid := ValidateGeometry(t.base, safe);
    if valid.Err? {
      return None;
    }
    if t.delta.None? {
      return Some(t.base);
    }
    var table := Apply(t.delta.value, t.base, safe);
    return if table.Ok? then Some(table.value) else None;
  }

  /** The map stored with the previous table: from its base to it. */
  function ToPrevious(previous: StoredTable): seq<nat> {
    if previous.delta.Some? then previous.delta.value.baseFrames else Identity(|previous.base.frames|)
  }

  function PreviousFrames(previous: StoredTable): seq<FrameInfo> {
    if previous.delta.Some? then previous.delta.value.frames else previous.base.frames
  }

  /** Every frame has a bundle, the indexes fit and the stored map names frames. */
  predicate MapsOn(previous: StoredTable, previousBundles: seq<Digest>, table: Metadata, bundles: seq<Digest>) {
    && FrameMaps.InBundles(PreviousFrames(previous), previousBundles) && FrameMaps.InBundles(table.frames, bundles)
    && |table.frames| <= U32_MAX
    && forall k :: 0 <= k < |ToPrevious(previous)| ==> ToPrevious(previous)[k] <= |PreviousFrames(previous)|
  }

  /** Each slot names the last frame of `table` that is the previous table's one, or
      says there is none. */
  ghost predicate IsBaseMap(previous: StoredTable, previousBundles: seq<Digest>, table: Metadata, bundles: seq<Digest>,
                            frameMap: seq<nat>) {
    var first, frames := ToPrevious(previous), PreviousFrames(previous);
    && |frameMap| == |first|
    && forall k :: 0 <= k < |first| ==>
      if 0 < first[k] <= |frames|
      then SlotOk(frames[first[k] - 1], previousBundles, table.frames, bundles, frameMap[k])
      else frameMap[k] == 0
  }

  /** The frame map from the stored base to `table`, in two steps: to the previous
      table, as stored with it, and from there. */
  method BaseFrameMap(previous: StoredTable, previousBundles: seq<Digest>, table: Metadata, bundles: seq<Digest>)
    returns (r: Option<seq<nat>>)
    ensures r.Some? <==> MapsOn(previous, previousBundles, table, bundles)
    ensures r.Some? ==> IsBaseMap(previous, previousBundles, table, bundles, r.value)
  {
    hide SlotOk, FrameMaps.InBundles;
    var toPrevious := Identity(|previous.base.frames|);
    var previousFrames := previous.base.frames;
    if previous.delta.Some? {
      toPrevious, previousFrames := previous.delta.value.baseFrames, previous.delta.value.frames;
    }
    var toTable := FrameMap(previousFrames, previousBundles, table.frames, bundles);
    if toTable.Err? {
      return None;
    }
    var frameMap := ComposeFrameMaps(toPrevious, toTable.value);
    assert toPrevious == ToPrevious(previous) && previousFrames == PreviousFrames(previous);
    assert frameMap.Ok? <==> forall k :: 0 <= k < |toPrevious| ==> toPrevious[k] <= |previousFrames|;
    return if frameMap.Ok? then Some(frameMap.value) else None;
  }

  /** The table can be stored as changes from the previous result's base. */
  ghost predicate HasDelta(table: Metadata, bundles: seq<Digest>, previous: (StoredTable, seq<Digest>),
                           safe: Bytes -> bool) {
    && GeometryOk(previous.0.base, safe) && MapsOn(previous.0, previous.1, table, bundles)
    && |ToPrevious(previous.0)| == |previous.0.base.frames|
  }

  /** The changes from the previous result's base. */
  ghost predicate IsDeltaOn(d: MetadataDelta, table: Metadata, bundles: seq<Digest>,
                            previous: (StoredTable, seq<Digest>)) {
    && IsBaseMap(previous.0, previous.1, table, bundles, d.baseFrames)
    && Between(previous.0.base, d.baseFrames, table) == Ok(d)
  }

  /** Store a table as changes from the previous result's base when there is a delta
      and it is small, or else whole. It reads back as it is, or in the delta's order. */
  method StoreTable(table: Metadata, bundles: seq<Digest>, previous: Option<(StoredTable, seq<Digest>)>, readable: bool,
                    small: bool, safe: Bytes -> bool)
    returns (t: StoredTable)
    requires GeometryOk(table, safe)
    ensures DistinctFiles(t.base.files)
    ensures ReadsBack(t, table, safe)
    ensures t.delta.Some? <==> previous.Some? && readable && small && HasDelta(table, bundles, previous.value, safe)
    ensures t.delta.Some? ==>
      t.base == previous.value.0.base && IsDeltaOn(t.delta.value, table, bundles, previous.value)
  {
    hide GeometryOk, Applied, Between, Reordered, IsBaseMap, MapsOn, ToPrevious;
    PathsAlone(table, safe);
    if previous.None? || !readable || !small {
      return StoredTable(table, None);
    }
    var base := previous.value.0.base;
    var valid := ValidateGeometry(base, safe);
    if valid.Err? {
      return StoredTable(table, None);
    }
    var frameMap := BaseFrameMap(previous.value.0, previous.value.1, table, bundles);
    if frameMap.None? {
      return StoredTable(table, None);
    }
    MapLength(previous.value.0, previous.value.1, table, bundles, frameMap.value);
    BetweenLength(base, frameMap.value, table);
    var delta := Between(base, frameMap.value, table);
    if delta.Err? {
      return StoredTable(table, None);
    }
    PathsAlone(base, safe);
    RoundTrip(base, frameMap.value, table, safe);
    return StoredTable(base, Some(delta.value));
  }

  lemma PathsAlone(m: Metadata, safe: Bytes -> bool)
    requires GeometryOk(m, safe)
    ensures DistinctFiles(m.files)
  {
    PathsDistinct(m);
  }

  lemma BetweenLength(base: Metadata, frameMap: seq<nat>, table: Metadata)
    ensures Between(base, frameMap, table).Ok? <==> |frameMap| == |base.frames|
    ensures Between(base, frameMap, table).Ok? ==> Between(base, frameMap, table).value.baseFrames == frameMap
  {}

  lemma MapLength(previous: StoredTable, previousBundles: seq<Digest>, table: Metadata, bundles: seq<Digest>,
                  frameMap: seq<nat>)
    requires IsBaseMap(previous, previousBundles, table, bundles, frameMap)
    ensures |frameMap| == |ToPrevious(previous)|
  {}

  /** The archive as read back. */
  ghost function ArchiveOf(r: FilesResult, safe: Bytes -> bool): Archive
    requires Loaded(r.table, safe).Ok?
  {
    Archive(r.frames, Loaded(r.table, safe).value, r.bundles)
  }

  ghost predicate SameFiles(a: seq<TreeFile>, b: seq<TreeFile>) {
    |a| == |b| && forall f :: f in a <==> f in b
  }

  /** The result reads back as exactly the tree, its files listed as in `t`. */
  ghost predicate ServesAs(env: Env, r: FilesResult, t: seq<TreeFile>, tree: seq<TreeFile>, gitlinks: seq<Bytes>,
                           safe: Bytes -> bool) {
    && Loaded(r.table, safe).Ok?
    && SameFiles(t, tree) && TreeOk(env, t, gitlinks, safe)
    && Sound(env, ArchiveOf(r, safe), t, gitlinks)
  }

  ghost predicate Serves(env: Env, r: FilesResult, tree: seq<TreeFile>, gitlinks: seq<Bytes>, safe: Bytes -> bool) {
    exists t :: ServesAs(env, r, t, tree, gitlinks, safe)
  }

  ghost predicate RecoversAs(env: Env, r: FilesResult, safe: Bytes -> bool, gs: seq<Group>, t: seq<TreeFile>) {
    && Loaded(r.table, safe).Ok?
    && BaseOf(env, ArchiveOf(r, safe), gs, t) && Recoverable(env, ArchiveOf(r, safe), t)
  }

  /** A build can compact onto the result: as read back it is well-formed, and the
      ranges recovered from it are right. */
  ghost predicate IsRecoverable(env: Env, r: FilesResult, safe: Bytes -> bool) {
    exists gs, t :: RecoversAs(env, r, safe, gs, t)
  }

  lemma TreeOfHeld(env: Env, files: seq<FileEntry>, tree: seq<TreeFile>, raws: seq<Bytes>)
    requires FilesHold(env, files, tree, raws)
    ensures TreeOf(files) == tree
  {
    forall i | 0 <= i < |tree| ensures TreeOf(files)[i] == tree[i] {
      assert FileHolds(env, files[i], tree[i], raws);
    }
  }

  /** In the delta's order the files still hold their blobs. */
  lemma ReorderedHold(env: Env, base: seq<FileEntry>, files: seq<FileEntry>, tree: seq<TreeFile>, raws: seq<Bytes>)
    requires FilesHold(env, files, tree, raws) && DistinctFiles(base) && DistinctFiles(files)
    ensures FilesHold(env, Reordered(base, files), TreeOf(Reordered(base, files)), raws)
    ensures SameFiles(TreeOf(Reordered(base, files)), tree)
  {
    hide Reordered, FileHolds;
    var back := Reordered(base, files);
    TreeOfHeld(env, files, tree, raws);
    ReorderedPermutes(base, files);
    forall i | 0 <= i < |back| ensures FileHolds(env, back[i], TreeOf(back)[i], raws) && TreeOf(back)[i] in tree {
      ReorderedHas(base, files, back[i]);
      var k :| 0 <= k < |files| && files[k] == back[i];
      assert TreeOf(back)[i] == tree[k] && FileHolds(env, files[k], tree[k], raws);
    }
    forall f | f in tree ensures f in TreeOf(back) {
      var k :| 0 <= k < |tree| && tree[k] == f;
      ReorderedHas(base, files, files[k]);
      var i :| 0 <= i < |back| && back[i] == files[k];
      assert TreeOf(back)[i] == f;
    }
  }

  lemma SameFilesOk(env: Env, m: Metadata, t: seq<TreeFile>, tree: seq<TreeFile>, gitlinks: seq<Bytes>,
                    safe: Bytes -> bool)
    requires TreeOk(env, tree, gitlinks, safe) && SameFiles(t, tree) && t == TreeOf(m.files) && m.gitlinks == gitlinks
      && GeometryOk(m, safe)
    ensures TreeOk(env, t, gitlinks, safe)
  {
    hide FileOk, Chained, TreeFileOk;
    assert Paths(m) == TreePaths(t, gitlinks);
    forall i | 0 <= i < |t| ensures TreeFileOk(env, t[i], safe) {
      assert t[i] in tree;
    }
  }

  /** Any sound archive stored either way serves its tree. */
  lemma StoredServes(env: Env, a: Archive, r: FilesResult, tree: seq<TreeFile>, gitlinks: seq<Bytes>,
                     safe: Bytes -> bool)
    requires Sound(env, a, tree, gitlinks) && TreeOk(env, tree, gitlinks, safe)
    requires r.frames == a.frames && r.bundles == a.bundles && DistinctFiles(r.table.base.files)
    requires ReadsBack(r.table, a.metadata, safe)
    ensures Serves(env, r, tree, gitlinks, safe)
  {
    hide *;
    AsReadBack(r.table, a.metadata, safe);
    SoundIsValid(env, a, tree, gitlinks, safe);
    PathsAlone(a.metadata, safe);
    SoundHolds(env, a, tree, gitlinks);
    if r.table.delta.None? {
      AreSame(tree);
      IsServed(env, r, a, tree, tree, gitlinks, safe);
    } else {
      var files := Reordered(r.table.base.files, a.metadata.files);
      ReorderedHold(env, r.table.base.files, a.metadata.files, tree, Raws(env, a.frames));
      ReorderedValid(r.table.base.files, a.metadata, safe);
      SoundGitlinks(env, a, tree, gitlinks);
      SameFilesOk(env, a.metadata.(files := files), TreeOf(files), tree, gitlinks, safe);
      StillSound(env, a, files, tree, gitlinks);
      IsServed(env, r, a.(metadata := a.metadata.(files := files)), TreeOf(files), tree, gitlinks, safe);
    }
  }

  lemma SoundGitlinks(env: Env, a: Archive, tree: seq<TreeFile>, gitlinks: seq<Bytes>)
    requires Sound(env, a, tree, gitlinks)
    ensures a.metadata.gitlinks == gitlinks
  {}

  lemma AreSame(tree: seq<TreeFile>)
    ensures SameFiles(tree, tree)
  {}

  lemma IsServed(env: Env, r: FilesResult, a: Archive, t: seq<TreeFile>, tree: seq<TreeFile>, gitlinks: seq<Bytes>,
                 safe: Bytes -> bool)
    requires Loaded(r.table, safe) == Ok(a.metadata) && r.frames == a.frames && r.bundles == a.bundles
    requires Sound(env, a, t, gitlinks) && SameFiles(t, tree) && TreeOk(env, t, gitlinks, safe)
    ensures Serves(env, r, tree, gitlinks, safe)
  {
    hide Sound, TreeOk, SameFiles, Loaded;
    assert ServesAs(env, r, t, tree, gitlinks, safe);
  }

  lemma StillSound(env: Env, a: Archive, files: seq<FileEntry>, tree: seq<TreeFile>, gitlinks: seq<Bytes>)
    requires Sound(env, a, tree, gitlinks) && FilesHold(env, files, TreeOf(files), Raws(env, a.frames))
    ensures Sound(env, a.(metadata := a.metadata.(files := files)), TreeOf(files), gitlinks)
  {
    hide FilesHold, Raws, TreeOf, Concat, AllInfos, Body, GroupLen, FramesOk;
    var gs :| GroupedBy(env, a, gs);
    assert GroupedBy(env, a.(metadata := a.metadata.(files := files)), gs);
  }

  /** A packed archive stored either way can be compacted onto exactly when its
      files' bytes come back in stream order: when its table is stored whole, or the
      delta's order gives the tree the same stream. */
  lemma StoredRecovers(env: Env, a: Archive, gs: seq<Group>, r: FilesResult, tree: seq<TreeFile>, safe: Bytes -> bool)
    requires BaseOf(env, a, gs, tree) && Concat(Raws(env, a.frames)) == Stream(env, tree)
      && DistinctFiles(a.metadata.files)
    requires r.frames == a.frames && r.bundles == a.bundles && DistinctFiles(r.table.base.files)
    requires ReadsBack(r.table, a.metadata, safe)
    ensures IsRecoverable(env, r, safe) <==> KeepsStream(env, r.table, tree)
  {
    hide *;
    AsReadBack(r.table, a.metadata, safe);
    if r.table.delta.None? {
      WholeKeeps(env, r.table, tree);
      IsRecoveredAs(env, r, a, gs, tree, safe);
    } else {
      var base, files := r.table.base.files, a.metadata.files;
      var back := Reordered(base, files);
      BaseFacts(env, a, gs, tree);
      ReorderedHold(env, base, files, tree, Raws(env, a.frames));
      WithFiles(env, a, gs, tree, back);
      TreeOfHeld(env, files, tree, Raws(env, a.frames));
      TreeReordered(base, files);
      ReorderedPermutes(base, files);
      SameTotal(env, a, tree, back);
      DeltaKeeps(env, r.table, tree);
      if KeepsStream(env, r.table, tree) {
        IsRecoveredAs(env, r, a.(metadata := a.metadata.(files := back)), gs, TreeOf(back), safe);
      } else if IsRecoverable(env, r, safe) {
        RecoveredStream(env, r, a.metadata.(files := back), safe);
      }
    }
  }

  /** The table is stored whole, or its delta's order keeps the tree's stream. */
  ghost predicate KeepsStream(env: Env, t: StoredTable, tree: seq<TreeFile>) {
    t.delta.None? || Stream(env, InDeltaOrder(t.base.files, tree)) == Stream(env, tree)
  }

  lemma WholeKeeps(env: Env, t: StoredTable, tree: seq<TreeFile>)
    requires t.delta.None?
    ensures KeepsStream(env, t, tree)
  {}

  lemma DeltaKeeps(env: Env, t: StoredTable, tree: seq<TreeFile>)
    requires t.delta.Some?
    ensures KeepsStream(env, t, tree) <==> Stream(env, InDeltaOrder(t.base.files, tree)) == Stream(env, tree)
  {}

  /** The table reads back as it was, or in the delta's order. */
  ghost predicate ReadsBack(t: StoredTable, m: Metadata, safe: Bytes -> bool) {
    Loaded(t, safe) == Ok(if t.delta.None? then m else m.(files := Reordered(t.base.files, m.files)))
  }

  lemma AsReadBack(t: StoredTable, m: Metadata, safe: Bytes -> bool)
    requires ReadsBack(t, m, safe)
    ensures Loaded(t, safe) == Ok(if t.delta.None? then m else m.(files := Reordered(t.base.files, m.files)))
  {}

  lemma IsRecoveredAs(env: Env, r: FilesResult, a: Archive, gs: seq<Group>, t: seq<TreeFile>, safe: Bytes -> bool)
    requires BaseOf(env, a, gs, t) && Loaded(r.table, safe) == Ok(a.metadata) && r.frames == a.frames
      && r.bundles == a.bundles
    requires Concat(Raws(env, a.frames)) == Stream(env, t)
    ensures IsRecoverable(env, r, safe)
  {
    hide BaseOf, Loaded, Stream, Concat;
    assert RecoversAs(env, r, safe, gs, t);
  }

  /** A result that can be compacted onto holds its table's stream, the totals being
      the same. */
  lemma RecoveredStream(env: Env, r: FilesResult, m: Metadata, safe: Bytes -> bool)
    requires IsRecoverable(env, r, safe) && Loaded(r.table, safe) == Ok(m)
    requires |Concat(Raws(env, r.frames))| == |Stream(env, TreeOf(m.files))|
    ensures Concat(Raws(env, r.frames)) == Stream(env, TreeOf(m.files))
  {
    hide GroupedBy, FilesHold, Loaded, Raws, Stream, Concat, TreeOf;
    var gs, t :| RecoversAs(env, r, safe, gs, t);
    TreeOfHeld(env, m.files, t, Raws(env, r.frames));
  }

  lemma BaseFacts(env: Env, a: Archive, gs: seq<Group>, tree: seq<TreeFile>)
    requires BaseOf(env, a, gs, tree)
    ensures FilesHold(env, a.metadata.files, tree, Raws(env, a.frames))
  {}

  lemma WithFiles(env: Env, a: Archive, gs: seq<Group>, tree: seq<TreeFile>, files: seq<FileEntry>)
    requires BaseOf(env, a, gs, tree) && FilesHold(env, files, TreeOf(files), Raws(env, a.frames))
    ensures BaseOf(env, a.(metadata := a.metadata.(files := files)), gs, TreeOf(files))
  {
    hide FilesHold, Raws, Concat, AllInfos, BundleOk, FramesOk, TreeOf;
  }

  /** Another order has the same total. */
  lemma SameTotal(env: Env, a: Archive, tree: seq<TreeFile>, back: seq<FileEntry>)
    requires FilesHold(env, a.metadata.files, tree, Raws(env, a.frames))
      && FilesHold(env, back, TreeOf(back), Raws(env, a.frames))
    requires multiset(back) == multiset(a.metadata.files) && Concat(Raws(env, a.frames)) == Stream(env, tree)
    ensures |Stream(env, TreeOf(back))| == |Concat(Raws(env, a.frames))|
  {
    hide FilesHold, Stream, Concat, TreeOf, Raws;
    SameLengths(env, a.metadata.files, tree, Raws(env, a.frames));
    SameLengths(env, back, TreeOf(back), Raws(env, a.frames));
    PermutedLens(back, a.metadata.files);
  }

  lemma {:induction false} PermutedLens(a: seq<FileEntry>, b: seq<FileEntry>)
    requires multiset(a) == multiset(b)
    ensures Sum(FileLens(a)) == Sum(FileLens(b))
  {
    if a == [] {
      assert |b| == |multiset(b)| == 0;
    } else {
      var n := |a| - 1;
      assert a[n] in multiset(b);
      var k :| 0 <= k < |b| && b[k] == a[n];
      assert a == a[..n] + [a[n]];
      assert b == b[..k] + [b[k]] + b[k + 1..];
      LessOne(a, b, n, k);
      PermutedLens(a[..n], b[..k] + b[k + 1..]);
      LensSnoc(a[..n], a[n]);
      LensWithout(b, k);
    }
  }

  lemma LessOne(a: seq<FileEntry>, b: seq<FileEntry>, n: nat, k: nat)
    requires n + 1 == |a| && k < |b| && a[n] == b[k] && multiset(a) == multiset(b)
    ensures multiset(a[..n]) == multiset(b[..k] + b[k + 1..])
  {
    var x, rest := a[n], b[..k] + b[k + 1..];
    assert a == a[..n] + [x] && b == b[..k] + [x] + b[k + 1..];
    TakeAway(multiset(a[..n]), multiset(rest), x);
  }

  lemma TakeAway<T>(a: multiset<T>, b: multiset<T>, x: T)
    requires a + multiset{x} == b + multiset{x}
    ensures a == b
  {
    assert (a + multiset{x}) - multiset{x} == a && (b + multiset{x}) - multiset{x} == b;
  }

  lemma LensWithout(files: seq<FileEntry>, k: nat)
    requires k < |files|
    ensures Sum(FileLens(files)) == Sum(FileLens(files[..k] + files[k + 1..])) + Length(files[k].fragments)
  {
    var lens, rest := FileLens(files), FileLens(files[..k] + files[k + 1..]);
    hide Length;
    assert lens == lens[..k] + ([lens[k]] + lens[k + 1..]);
    assert rest == lens[..k] + lens[k + 1..];
    SumAppend(lens[..k], [lens[k]] + lens[k + 1..]);
    SumAppend(lens[..k], lens[k + 1..]);
    assert ([lens[k]] + lens[k + 1..])[1..] == lens[k + 1..];
  }

  function CompressedBytes(r: FilesResult): nat { GroupLen(r.frames) }

  /** How many bundles of `r` the compact archive does not have. */
  function TailCount(bundles: seq<Digest>, packed: seq<Digest>): nat {
    |Filter(bundles, (d: Digest) => d !in packed)|
  }

  /** Whether a build may add a tail. */
  predicate TailFits(r: FilesResult, compact: FilesResult) {
    && CompressedBytes(r) * 100 < CompressedBytes(compact) * (100 + TAIL_PERCENT)
    && TailCount(r.bundles, compact.bundles) < MAX_TAILS
  }

  /** What the hashes of this build compare: the tree's stream, and that of the
      blobs the previous result lacks. */
  ghost predicate Comparable(env: Env, blobs: seq<TreeFile>, previous: Option<FilesResult>, safe: Bytes -> bool) {
    && StreamKnown(env, Stream(env, blobs))
    && (previous.Some? && Loaded(previous.value.table, safe).Ok? ==>
         StreamKnown(env, Stream(env, FirstNew(blobs, Held(Loaded(previous.value.table, safe).value.files), |blobs|))))
  }

  /** The result reads back as some tree. */
  ghost predicate Servable(env: Env, r: FilesResult, safe: Bytes -> bool) {
    exists tree, gitlinks :: Serves(env, r, tree, gitlinks, safe)
  }

  /** A result later builds may start from: it reads back as some tree, and so does
      the packed build under it. */
  ghost predicate Standing(env: Env, r: FilesResult, safe: Bytes -> bool) {
    Servable(env, r, safe) && Servable(env, Compact(r), safe)
  }

  /** A tail on the previous result, when it can be read. */
  method TailOn(env: Env, blobs: seq<TreeFile>, gitlinks: seq<Bytes>, previous: FilesResult, m: Metadata,
                safe: Bytes -> bool)
    returns (r: Result<Archive>)
    requires Lawful(env) && Comparable(env, blobs, Some(previous), safe)
    requires Loaded(previous.table, safe) == Ok(m) && Servable(env, previous, safe)
    ensures r.Ok? ==> Sound(env, r.value, blobs, gitlinks)
  {
    hide *;
    var base := Archive(previous.frames, m, previous.bundles);
    IsArchiveOf(previous, m, safe);
    ghost var gs, tree := ServedBase(env, previous, safe);
    BaseShape(env, base, gs, tree);
    TailKnown(env, blobs, previous, m, safe);
    BundleSizeFits();
    var built; ghost var live;
    built, live := BuildTail(env, blobs, gitlinks, base, BUNDLE_SIZE, gs, tree);
    return if built.Ok? then Ok(built.value.archive) else Err(built.error);
  }

  lemma BaseShape(env: Env, a: Archive, gs: seq<Group>, tree: seq<TreeFile>)
    requires BaseOf(env, a, gs, tree)
    ensures GroupedBy(env, a, gs) && FilesHold(env, a.metadata.files, tree, Raws(env, a.frames))
  {}

  lemma ServedBase(env: Env, r: FilesResult, safe: Bytes -> bool) returns (gs: seq<Group>, t: seq<TreeFile>)
    requires Servable(env, r, safe)
    ensures Loaded(r.table, safe).Ok? && BaseOf(env, ArchiveOf(r, safe), gs, t)
  {
    hide Loaded, GroupedBy, FilesHold, Raws, TreeOk, SameFiles;
    var tree, gitlinks :| Serves(env, r, tree, gitlinks, safe);
    t :| ServesAs(env, r, t, tree, gitlinks, safe);
    gs :| GroupedBy(env, ArchiveOf(r, safe), gs);
  }

  lemma TailKnown(env: Env, blobs: seq<TreeFile>, previous: FilesResult, m: Metadata, safe: Bytes -> bool)
    requires Comparable(env, blobs, Some(previous), safe) && Loaded(previous.table, safe) == Ok(m)
    ensures StreamKnown(env, Stream(env, FirstNew(blobs, Held(m.files), |blobs|)))
  {
    hide StreamKnown, Stream, FirstNew, Held, Loaded;
  }

  /** A packed build on the compact archive, when there is one that can be read. */
  method PackOn(env: Env, stores: Stores, blobs: seq<TreeFile>, gitlinks: seq<Bytes>, base: Option<Archive>, min: nat,
                ghost compact: Option<FilesResult>, safe: Bytes -> bool)
    returns (r: Result<Archive>)
    requires Lawful(env) && StoresKnown(env, stores) && StreamKnown(env, Stream(env, blobs))
    requires base.Some? ==> compact.Some? && Servable(env, compact.value, safe)
    requires base.Some? ==> Loaded(compact.value.table, safe).Ok? && base.value == ArchiveOf(compact.value, safe)
    ensures r.Ok? ==> Laid(env, r.value, blobs, gitlinks, BUNDLE_SIZE)
    ensures r.Ok? && (base.Some? ==> IsRecoverable(env, compact.value, safe)) ==>
      Concat(Raws(env, r.value.frames)) == Stream(env, blobs)
  {
    hide *;
    ghost var bgs: seq<Group>, btree: seq<TreeFile> := [], [];
    if base.Some? {
      bgs, btree := PackBase(env, compact.value, safe);
    }
    BundleSizeFits();
    var built := BuildIntoCas(env, stores, blobs, gitlinks, base, BUNDLE_SIZE, min, bgs, btree, 0);
    if built.Err? {
      return Err(built.error);
    }
    if base.Some? ==> IsRecoverable(env, compact.value, safe) {
      PackedIsSound(env, built.value.archive, blobs, gitlinks, BUNDLE_SIZE);
    }
    return Ok(built.value.archive);
  }

  lemma BundleSizeFits()
    ensures BUNDLE_SIZE <= U64_MAX
  {}

  lemma PackBase(env: Env, r: FilesResult, safe: Bytes -> bool) returns (gs: seq<Group>, t: seq<TreeFile>)
    requires Servable(env, r, safe)
    ensures Loaded(r.table, safe).Ok? && BaseOf(env, ArchiveOf(r, safe), gs, t)
    ensures IsRecoverable(env, r, safe) ==> Recoverable(env, ArchiveOf(r, safe), t)
  {
    hide BaseOf, Loaded, Recoverable, Servable;
    if IsRecoverable(env, r, safe) {
      gs, t :| RecoversAs(env, r, safe, gs, t);
    } else {
      gs, t := ServedBase(env, r, safe);
    }
  }

  /** Nothing can go wrong: there is no base, a tail fits, or the compact archive
      can be compacted onto. */
  ghost predicate Unharmed(env: Env, previous: Option<FilesResult>, safe: Bytes -> bool) {
    previous.Some? ==>
      TailFits(previous.value, Compact(previous.value)) || IsRecoverable(env, Compact(previous.value), safe)
  }

  /** What one build of a chain promises. The result serves exactly the tree, unless
      it is compacted onto an archive that cannot be. A tail always does and keeps the
      compact archive. A packed build does exactly when its frames hold the tree's
      stream, and can then be compacted onto exactly when its table keeps that. */
  ghost predicate Promised(env: Env, previous: Option<FilesResult>, r: FilesResult, blobs: seq<TreeFile>,
                           gitlinks: seq<Bytes>, safe: Bytes -> bool) {
    var serves := Serves(env, r, blobs, gitlinks, safe);
    && (Unharmed(env, previous, safe) ==> serves)
    && (r.compact.Some? ==> serves && previous.Some? && r.compact.value == Compact(previous.value))
    && (r.compact.None? ==> (serves <==> Concat(Raws(env, r.frames)) == Stream(env, blobs)))
    && (r.compact.None? && serves ==> (IsRecoverable(env, r, safe) <==> KeepsStream(env, r.table, blobs)))
  }

  /** Build the Files result of a tree on the previous one: a tail while the tails
      are small, or else a packed build on the compact archive; without a base
      when neither can be read or a tail fails. `readable`: the stores still have the
      table to build on; `readableBefore`: they have the one to store changes from. */
  method BuildFilesResult(env: Env, stores: Stores, blobs: seq<TreeFile>, gitlinks: seq<Bytes>,
                          previous: Option<FilesResult>,
                          readable: bool, readableBefore: bool, small: bool, min: nat, safe: Bytes -> bool)
    returns (r: Result<FilesResult>)
    requires Lawful(env) && StoresKnown(env, stores) && Comparable(env, blobs, previous, safe)
    requires TreeOk(env, blobs, gitlinks, safe)
    requires previous.Some? ==> Standing(env, previous.value, safe)
    ensures r.Ok? ==> Promised(env, previous, r.value, blobs, gitlinks, safe)
    ensures r.Ok? && !readable ==> Serves(env, r.value, blobs, gitlinks, safe)
  {
    hide *;
    var compact: Option<FilesResult> := if previous.Some? then Some(Compact(previous.value)) else None;
    var tail := previous.Some? && TailFits(previous.value, compact.value);
    var baseFiles: Option<FilesResult> := if tail then previous else compact;
    var metadata: Option<Metadata> := None;
    if baseFiles.Some? {
      metadata := LoadMetadata(baseFiles.value.table, readable, safe);
    }
    StreamsKnown(env, blobs, previous, safe);
    if previous.Some? { StandingBoth(env, previous.value, safe); }
    if tail && metadata.Some? {
      var tailed := TailOn(env, blobs, gitlinks, previous.value, metadata.value, safe);
      if tailed.Ok? {
        SoundIsValid(env, tailed.value, blobs, gitlinks, safe);
        var result := Store(env, tailed.value, blobs, gitlinks, previous, compact, readableBefore, small, safe);
        TailPromised(env, result, previous.value, blobs, gitlinks, safe);
        return Ok(result);
      }
    }
    var base: Option<Archive> := None;
    if metadata.Some? && !tail {
      base := Some(Archive(baseFiles.value.frames, metadata.value, baseFiles.value.bundles));
      IsArchiveOf(compact.value, metadata.value, safe);
    }
    var packed := PackOn(env, stores, blobs, gitlinks, base, min, compact, safe);
    if packed.Err? {
      return Err(packed.error);
    }
    LaidIsValid(env, packed.value, blobs, gitlinks, BUNDLE_SIZE, safe);
    LaidExact(env, packed.value, blobs, gitlinks, BUNDLE_SIZE);
    var result := Store(env, packed.value, blobs, gitlinks, previous, None, readableBefore, small, safe);
    UnharmedBase(env, previous, base, compact, safe);
    PackedPromised(env, previous, packed.value, result, blobs, gitlinks, safe);
    return Ok(result);
  }

  lemma StandingBoth(env: Env, r: FilesResult, safe: Bytes -> bool)
    requires Standing(env, r, safe)
    ensures Servable(env, r, safe) && Servable(env, Compact(r), safe)
  {}

  lemma UnharmedBase(env: Env, previous: Option<FilesResult>, base: Option<Archive>, compact: Option<FilesResult>,
                 safe: Bytes -> bool)
    requires previous.Some? ==> compact == Some(Compact(previous.value))
    requires base.Some? ==> previous.Some? && !TailFits(previous.value, Compact(previous.value))
    ensures Unharmed(env, previous, safe) && base.Some? ==> compact.Some? && IsRecoverable(env, compact.value, safe)
  {}

  /** An archive laid out for a tree has a valid table, whatever its frames hold. */
  lemma LaidIsValid(env: Env, a: Archive, tree: seq<TreeFile>, gitlinks: seq<Bytes>, target: nat, safe: Bytes -> bool)
    requires Laid(env, a, tree, gitlinks, target) && TreeOk(env, tree, gitlinks, safe)
    ensures GeometryOk(a.metadata, safe)
  {
    hide Concat, AllInfos, FileOk, TreeFileOk, Raws, Body, GroupLen, Chained, FrameOk, Packed, Framed, Length, Bundled,
      MinLen, MaxLen;
    var gs := Bundled(a.frames, MinLen(target), MaxLen(target));
    AllChained(gs);
    forall i | 0 <= i < |tree|
      ensures FileOk(a.metadata.files[i], a.metadata.frames, safe) && a.metadata.files[i].path == tree[i].path
    {
      assert EntryFits(env, a.metadata.files[i], tree[i], Raws(env, a.frames));
      EntryOk(env, a.metadata.files[i], tree[i], gs, safe);
    }
    assert Paths(a.metadata) == TreePaths(tree, gitlinks);
  }

  /** Store the table and put the result together. */
  method Store(env: Env, a: Archive, blobs: seq<TreeFile>, gitlinks: seq<Bytes>, previous: Option<FilesResult>,
               compact: Option<FilesResult>, readable: bool, small: bool, safe: Bytes -> bool)
    returns (r: FilesResult)
    requires GeometryOk(a.metadata, safe) && TreeOk(env, blobs, gitlinks, safe)
    ensures r.frames == a.frames && r.bundles == a.bundles && r.compact == compact
    ensures DistinctFiles(r.table.base.files) && DistinctFiles(a.metadata.files)
    ensures ReadsBack(r.table, a.metadata, safe)
    ensures Sound(env, a, blobs, gitlinks) ==> Serves(env, r, blobs, gitlinks, safe)
  {
    hide *;
    PathsAlone(a.metadata, safe);
    var before: Option<(StoredTable, seq<Digest>)> := if previous.Some?
      then Some((previous.value.table, previous.value.bundles)) else None;
    var table := StoreTable(a.metadata, a.bundles, before, readable, small, safe);
    r := FilesResult(a.frames, a.bundles, table, compact);
    if Sound(env, a, blobs, gitlinks) {
      StoredServes(env, a, r, blobs, gitlinks, safe);
    }
  }

  lemma StreamsKnown(env: Env, blobs: seq<TreeFile>, previous: Option<FilesResult>, safe: Bytes -> bool)
    requires Comparable(env, blobs, previous, safe)
    ensures StreamKnown(env, Stream(env, blobs))
    ensures previous.Some? ==> Comparable(env, blobs, Some(previous.value), safe)
  {
    hide StreamKnown, Stream, FirstNew, Held, Loaded;
  }

  lemma IsArchiveOf(r: FilesResult, m: Metadata, safe: Bytes -> bool)
    requires Loaded(r.table, safe) == Ok(m)
    ensures ArchiveOf(r, safe) == Archive(r.frames, m, r.bundles)
  {}

  lemma TailPromised(env: Env, r: FilesResult, previous: FilesResult, tree: seq<TreeFile>, gitlinks: seq<Bytes>,
                     safe: Bytes -> bool)
    requires Serves(env, r, tree, gitlinks, safe) && r.compact == Some(Compact(previous))
    ensures Promised(env, Some(previous), r, tree, gitlinks, safe)
  {
    hide IsRecoverable, Serves, KeepsStream;
  }

  lemma PackedPromised(env: Env, previous: Option<FilesResult>, a: Archive, r: FilesResult, tree: seq<TreeFile>,
                       gitlinks: seq<Bytes>, safe: Bytes -> bool)
    requires Laid(env, a, tree, gitlinks, BUNDLE_SIZE)
    requires Unharmed(env, previous, safe) ==> Concat(Raws(env, a.frames)) == Stream(env, tree)
    requires Sound(env, a, tree, gitlinks) ==> Serves(env, r, tree, gitlinks, safe)
    requires r.compact.None? && r.frames == a.frames && r.bundles == a.bundles
    requires DistinctFiles(r.table.base.files) && DistinctFiles(a.metadata.files)
    requires ReadsBack(r.table, a.metadata, safe)
    ensures Promised(env, previous, r, tree, gitlinks, safe)
  {
    hide *;
    LaidExact(env, a, tree, gitlinks, BUNDLE_SIZE);
    if Serves(env, r, tree, gitlinks, safe) {
      ServedIsExact(env, a, r, tree, gitlinks, BUNDLE_SIZE, safe);
    }
    if Concat(Raws(env, a.frames)) == Stream(env, tree) {
      ghost var gs := PackedIsBase(env, a, tree, gitlinks);
      StoredRecovers(env, a, gs, r, tree, safe);
    }
    ArePromised(env, previous, r, tree, gitlinks, safe);
  }

  lemma ArePromised(env: Env, previous: Option<FilesResult>, r: FilesResult, tree: seq<TreeFile>, gitlinks: seq<Bytes>,
                    safe: Bytes -> bool)
    requires r.compact.None?
    requires Unharmed(env, previous, safe) ==> Concat(Raws(env, r.frames)) == Stream(env, tree)
    requires Serves(env, r, tree, gitlinks, safe) <==> Concat(Raws(env, r.frames)) == Stream(env, tree)
    requires Concat(Raws(env, r.frames)) == Stream(env, tree) ==>
      (IsRecoverable(env, r, safe) <==> KeepsStream(env, r.table, tree))
    ensures Promised(env, previous, r, tree, gitlinks, safe)
  {
    hide Unharmed, Serves, IsRecoverable, KeepsStream, Concat, Raws, Stream;
  }

  lemma PackedIsBase(env: Env, a: Archive, tree: seq<TreeFile>, gitlinks: seq<Bytes>) returns (gs: seq<Group>)
    requires PackedArchive(env, a, tree, gitlinks, BUNDLE_SIZE)
    ensures BaseOf(env, a, gs, tree)
  {
    hide GroupedBy, FilesHold, EntriesFit, Framed, MinLen, MaxLen, Concat, Stream;
    gs := Bundled(a.frames, MinLen(BUNDLE_SIZE), MaxLen(BUNDLE_SIZE));
  }

  /** A laid out archive that serves its tree is exactly that tree. */
  lemma ServedIsExact(env: Env, a: Archive, r: FilesResult, tree: seq<TreeFile>, gitlinks: seq<Bytes>, target: nat,
                      safe: Bytes -> bool)
    requires Laid(env, a, tree, gitlinks, target) && Serves(env, r, tree, gitlinks, safe)
    requires r.frames == a.frames && DistinctFiles(r.table.base.files) && DistinctFiles(a.metadata.files)
    requires ReadsBack(r.table, a.metadata, safe)
    ensures Sound(env, a, tree, gitlinks)
  {
    hide *;
    var files, raws: seq<Bytes> := a.metadata.files, Raws(env, a.frames);
    AsReadBack(r.table, a.metadata, safe);
    var back: seq<FileEntry> := if r.table.delta.None? then files else Reordered(r.table.base.files, files);
    var t: seq<TreeFile> := ServedHolds(env, r, tree, gitlinks, safe, back);
    LaidEntries(env, a, tree, gitlinks, target);
    forall i | 0 <= i < |tree| ensures FileHolds(env, files[i], tree[i], raws) {
      ReorderedHas(r.table.base.files, files, files[i]);
      assert files[i] in back;
      var j :| 0 <= j < |back| && back[j] == files[i];
      SameFile(env, files[i], t[j], tree[i], raws);
    }
    AllHold(env, a, tree, gitlinks, target);
  }

  lemma ServedHolds(env: Env, r: FilesResult, tree: seq<TreeFile>, gitlinks: seq<Bytes>, safe: Bytes -> bool,
                    back: seq<FileEntry>)
    returns (t: seq<TreeFile>)
    requires Serves(env, r, tree, gitlinks, safe) && Loaded(r.table, safe).Ok?
      && Loaded(r.table, safe).value.files == back
    ensures |t| == |back| && forall j :: 0 <= j < |back| ==> FileHolds(env, back[j], t[j], Raws(env, r.frames))
  {
    hide Loaded, GroupedBy, FileHolds, Raws, TreeOk, SameFiles;
    t :| ServesAs(env, r, t, tree, gitlinks, safe);
  }

  lemma LaidEntries(env: Env, a: Archive, tree: seq<TreeFile>, gitlinks: seq<Bytes>, target: nat)
    requires Laid(env, a, tree, gitlinks, target)
    ensures var files := a.metadata.files;
      |files| == |tree| && forall i :: 0 <= i < |tree| ==>
        files[i].path == tree[i].path && files[i].mode == tree[i].mode && files[i].blob == tree[i].oid
  {
    hide GroupedBy, Packed, Framed, InFrame, Raws;
    forall i | 0 <= i < |tree|
      ensures var f := a.metadata.files[i]; f.path == tree[i].path && f.mode == tree[i].mode && f.blob == tree[i].oid
    {
      assert EntryFits(env, a.metadata.files[i], tree[i], Raws(env, a.frames));
    }
  }

  lemma SameFile(env: Env, entry: FileEntry, was: TreeFile, file: TreeFile, raws: seq<Bytes>)
    requires FileHolds(env, entry, was, raws)
    requires entry.path == file.path && entry.mode == file.mode && entry.blob == file.oid
    ensures FileHolds(env, entry, file, raws)
  {}

  lemma AllHold(env: Env, a: Archive, tree: seq<TreeFile>, gitlinks: seq<Bytes>, target: nat)
    requires Laid(env, a, tree, gitlinks, target) && |a.metadata.files| == |tree|
    requires forall i :: 0 <= i < |tree| ==> FileHolds(env, a.metadata.files[i], tree[i], Raws(env, a.frames))
    ensures Sound(env, a, tree, gitlinks)
  {
    hide FileHolds, Raws, Laid;
    PackedIsSound(env, a, tree, gitlinks, target);
  }

  /** The result before the `i`th, if any. */
  function Previous(results: seq<FilesResult>, i: nat): Option<FilesResult>
    requires i <= |results|
  {
    if i == 0 then None else Some(results[i - 1])
  }

  /** Each result was built on the one before it, which then met its promise. */
  ghost predicate IsChain(env: Env, results: seq<FilesResult>, trees: seq<seq<TreeFile>>, gitlinks: seq<seq<Bytes>>,
                          safe: Bytes -> bool) {
    && |results| == |trees| == |gitlinks|
    && forall i :: 0 <= i < |results| ==> Built(env, Previous(results, i), results[i], trees[i], gitlinks[i], safe)
  }

  /** The result of a build that started from `previous`. */
  ghost predicate Built(env: Env, previous: Option<FilesResult>, r: FilesResult, tree: seq<TreeFile>,
                        gitlinks: seq<Bytes>, safe: Bytes -> bool) {
    (previous.Some? ==> Standing(env, previous.value, safe)) ==> Promised(env, previous, r, tree, gitlinks, safe)
  }

  /** The last packed build up to the `i`th. */
  function PackedUnder(results: seq<FilesResult>, i: nat): (p: nat)
    requires i < |results|
    ensures p <= i
  {
    if i == 0 || results[i].compact.None? then i else PackedUnder(results, i - 1)
  }

  /** The build after the `i`th adds a tail, or the table of the last packed build keeps
      the stream of its tree. */
  ghost predicate KeptFor(env: Env, results: seq<FilesResult>, trees: seq<seq<TreeFile>>, i: nat)
    requires i < |results| == |trees|
  {
    var p := PackedUnder(results, i);
    TailFits(results[i], Compact(results[i])) || KeepsStream(env, results[p].table, trees[p])
  }

  /** Over a whole chain of builds every result serves exactly its own tree, as long as
      no compaction starts from a packed build whose table lost its stream. Tails may
      be added on such a build as before. */
  lemma {:induction false} EveryChain(env: Env, results: seq<FilesResult>, trees: seq<seq<TreeFile>>,
                                      gitlinks: seq<seq<Bytes>>, safe: Bytes -> bool, n: nat)
    requires IsChain(env, results, trees, gitlinks, safe) && n < |results|
    requires forall i :: 0 <= i < n ==> KeptFor(env, results, trees, i)
    ensures forall i :: 0 <= i <= n ==> Serves(env, results[i], trees[i], gitlinks[i], safe)
    ensures Compact(results[n]) == results[PackedUnder(results, n)]
    ensures IsRecoverable(env, Compact(results[n]), safe) <==>
      KeepsStream(env, results[PackedUnder(results, n)].table, trees[PackedUnder(results, n)])
  {
    hide Serves, IsRecoverable, KeepsStream, TailFits, Compact, Built, Standing;
    assert Built(env, Previous(results, n), results[n], trees[n], gitlinks[n], safe);
    if n == 0 {
      FirstBuilt(env, results[0], trees[0], gitlinks[0], safe);
    } else {
      EveryChain(env, results, trees, gitlinks, safe, n - 1);
      ChainStands(env, results, trees, gitlinks, safe, n - 1);
      assert KeptFor(env, results, trees, n - 1);
      var p := PackedUnder(results, n - 1);
      var keeps := KeepsStream(env, results[p].table, trees[p]);
      NextBuilt(env, results[n - 1], results[n], trees[n], gitlinks[n], keeps, safe);
    }
  }

  lemma FirstBuilt(env: Env, r: FilesResult, tree: seq<TreeFile>, gitlinks: seq<Bytes>, safe: Bytes -> bool)
    requires Built(env, None, r, tree, gitlinks, safe)
    ensures Serves(env, r, tree, gitlinks, safe) && Compact(r) == r
    ensures IsRecoverable(env, r, safe) <==> KeepsStream(env, r.table, tree)
  {
    hide Serves, IsRecoverable, KeepsStream;
  }

  /** One build further; `keeps` says that the packed build under the previous result
      keeps its stream. */
  lemma NextBuilt(env: Env, previous: FilesResult, r: FilesResult, tree: seq<TreeFile>, gitlinks: seq<Bytes>,
                  keeps: bool, safe: Bytes -> bool)
    requires Built(env, Some(previous), r, tree, gitlinks, safe) && Standing(env, previous, safe)
    requires TailFits(previous, Compact(previous)) || keeps
    requires IsRecoverable(env, Compact(previous), safe) <==> keeps
    ensures Serves(env, r, tree, gitlinks, safe)
    ensures Compact(r) == if r.compact.None? then r else Compact(previous)
    ensures IsRecoverable(env, Compact(r), safe) <==> if r.compact.None? then KeepsStream(env, r.table, tree) else keeps
  {
    hide Serves, IsRecoverable, KeepsStream, TailFits, Standing;
  }

  lemma ChainStands(env: Env, results: seq<FilesResult>, trees: seq<seq<TreeFile>>, gitlinks: seq<seq<Bytes>>,
                    safe: Bytes -> bool, i: nat)
    requires i < |results| == |trees| == |gitlinks|
    requires forall k :: 0 <= k <= i ==> Serves(env, results[k], trees[k], gitlinks[k], safe)
    requires Compact(results[i]) == results[PackedUnder(results, i)]
    ensures Standing(env, results[i], safe)
  {
    hide Serves, Compact;
    var p := PackedUnder(results, i);
    assert Serves(env, results[p], trees[p], gitlinks[p], safe);
    assert Serves(env, results[i], trees[i], gitlinks[i], safe);
  }

  ghost predicate WrittenAs(env: Env, files: seq<FileEntry>, written: seq<Written>, f: TreeFile) {
    exists n :: 0 <= n < |written| && written[n].file < |files|
      && files[written[n].file].path == f.path && files[written[n].file].mode == f.mode
         && written[n].content == env.blob(f.oid)
  }

  /** Every file of the tree is written at its path with its mode and its blob's
      bytes, and as many files are written as the tree has. */
  ghost predicate WritesTree(env: Env, files: seq<FileEntry>, written: seq<Written>, tree: seq<TreeFile>) {
    |written| == |tree| && forall f :: f in tree ==> WrittenAs(env, files, written, f)
  }

  lemma ExactlyTree(env: Env, files: seq<FileEntry>, written: seq<Written>, t: seq<TreeFile>, tree: seq<TreeFile>)
    requires Exactly(env, files, t, written) && SameFiles(t, tree)
    ensures WritesTree(env, files, written, tree)
  {
    forall f | f in tree ensures WrittenAs(env, files, written, f) {
      assert f in t;
      var i :| 0 <= i < |t| && t[i] == f;
      var n := WrittenOnce(written, |t|, i);
      assert IsTreeFile(env, files, t, written[n]);
    }
  }

  /** As many distinct files as there are: each is among them. */
  lemma {:induction false} WrittenOnce(written: seq<Written>, count: nat, i: nat) returns (n: nat)
    requires |written| == count && i < count
    requires forall a :: 0 <= a < |written| ==> written[a].file < count
    requires forall a, b :: 0 <= a < b < |written| ==> written[a].file != written[b].file
    ensures n < |written| && written[n].file == i
  {
    FileSet(written);
    BelowSize(count);
    var all, got := Below(count), Files(written);
    assert got <= all;
    SameSize(got, all);
    assert i in got;
    n :| 0 <= n < |written| && written[n].file == i;
  }

  lemma SameSize(a: set<nat>, b: set<nat>)
    requires a <= b && |a| == |b|
    ensures a == b
  {
    assert |b - a| == |b| - |a|;
  }

  /** Check a served result out: load its table, fetch its bundles, run the
      writers in any order. Exactly the tree is written. */
  method CheckoutResult(env: Env, r: FilesResult, bodies: seq<Bytes>, size: nat, order: seq<Ref>, safe: Bytes -> bool,
                        ghost m: Metadata, ghost gs: seq<Group>, ghost sched: seq<nat>, ghost tree: seq<TreeFile>,
                          ghost gitlinks: seq<Bytes>)
    returns (w: Result<seq<Written>>)
    requires Lawful(env) && Serves(env, r, tree, gitlinks, safe) && Loaded(r.table, safe) == Ok(m)
    requires GroupedBy(env, Archive(r.frames, m, r.bundles), gs)
      && Fetched(env, Archive(r.frames, m, r.bundles), gs, bodies)
    requires FullSchedule(Queues(m.files, AllRefs(m.files), |r.frames|), sched)
    requires order == Merge(Queues(m.files, AllRefs(m.files), |r.frames|), sched)
    ensures w.Ok? && WritesTree(env, m.files, w.value, tree)
  {
    hide *;
    var table := LoadMetadata(r.table, true, safe);
    var a := Archive(r.frames, table.value, r.bundles);
    IsArchiveOf(r, table.value, safe);
    ghost var t := ServedTree(env, r, m, tree, gitlinks, safe);
    w := Checkout(env, a, bodies, size, safe, order, sched, gs, t, gitlinks);
    ExactlyTree(env, m.files, w.value, t, tree);
  }

  lemma ServedTree(env: Env, r: FilesResult, m: Metadata, tree: seq<TreeFile>, gitlinks: seq<Bytes>,
                   safe: Bytes -> bool) returns (t: seq<TreeFile>)
    requires Serves(env, r, tree, gitlinks, safe) && Loaded(r.table, safe) == Ok(m)
    ensures SameFiles(t, tree) && TreeOk(env, t, gitlinks, safe)
      && Sound(env, Archive(r.frames, m, r.bundles), t, gitlinks)
  {
    hide SameFiles, TreeOk, Sound, Loaded;
    t :| ServesAs(env, r, t, tree, gitlinks, safe);
  }
}
