/** The bytes of a table's files in the order a stored delta gives them back. */
module DeltaStreams {
  import opened Clonepack
  import opened Seqs
  import opened Layouts
  import opened Listings
  import opened Deltas
  import opened DeltaOrders

  function TreeOf(files: seq<FileEntry>): seq<TreeFile> {
    seq(|files|, i requires 0 <= i < |files| => TreeFile(files[i].path, files[i].blob, files[i].mode))
  }

  /** The entry without its place. */
  function Stub(f: FileEntry): FileEntry { f.(fragments := []) }

  function Stubs(files: seq<FileEntry>): seq<FileEntry> {
    seq(|files|, i requires 0 <= i < |files| => Stub(files[i]))
  }

  function EntriesOf(tree: seq<TreeFile>): seq<FileEntry> {
    seq(|tree|, i requires 0 <= i < |tree| => FileEntry(tree[i].path, tree[i].mode, tree[i].oid, []))
  }

  /** The tree's files as a table stored as changes from one with the files `base`
      lists them when it is read back. */
  function InDeltaOrder(base: seq<FileEntry>, tree: seq<TreeFile>): seq<TreeFile> {
    TreeOf(Reordered(base, EntriesOf(tree)))
  }

  lemma {:induction false} LookupStub(files: seq<FileEntry>, path: Bytes)
    ensures var found := Lookup(files, path);
      Lookup(Stubs(files), path) == if found.Some? then Some(Stub(found.value)) else None
  {
    if files != [] {
      var n := |files| - 1;
      LookupStub(files[..n], path);
      assert Stubs(files)[..n] == Stubs(files[..n]);
    }
  }

  lemma {:induction false} SharedStub(base: seq<FileEntry>, files: seq<FileEntry>)
    ensures Shared(base, Stubs(files)) == Stubs(Shared(base, files))
  {
    if base != [] {
      SharedStub(base[..|base| - 1], files);
      LookupStub(files, base[|base| - 1].path);
    }
  }

  lemma {:induction false} AddedStub(base: seq<FileEntry>, files: seq<FileEntry>)
    ensures Added(base, Stubs(files)) == Stubs(Added(base, files))
  {
    if files != [] {
      var n := |files| - 1;
      AddedStub(base, files[..n]);
      assert Stubs(files)[..n] == Stubs(files[..n]);
    }
  }

  /** The delta's order depends on the tree only, not on where its files are. */
  lemma TreeReordered(base: seq<FileEntry>, files: seq<FileEntry>)
    ensures TreeOf(Reordered(base, files)) == InDeltaOrder(base, TreeOf(files))
  {
    hide Shared, Added;
    SharedStub(base, files);
    AddedStub(base, files);
    assert EntriesOf(TreeOf(files)) == Stubs(files);
    assert Reordered(base, Stubs(files)) == Stubs(Reordered(base, files));
  }

  /** The paths of the tree's files that hold bytes. */
  function FullPaths(env: Env, tree: seq<TreeFile>): seq<Bytes> {
    if tree == [] then [] else
      var n := |tree| - 1;
      FullPaths(env, tree[..n]) + if env.blob(tree[n].oid) != [] then [tree[n].path] else []
  }

  function Full(env: Env): FileEntry -> bool {
    (f: FileEntry) => env.blob(f.blob) != []
  }

  lemma {:induction false} FullPathsAre(env: Env, tree: seq<TreeFile>)
    ensures PathsOf(Filter(EntriesOf(tree), Full(env))) == FullPaths(env, tree)
  {
    if tree != [] {
      var n := |tree| - 1;
      FullPathsAre(env, tree[..n]);
      assert EntriesOf(tree)[..n] == EntriesOf(tree[..n]);
    }
  }

  /** Files that hold no bytes do not matter to the stream. */
  lemma {:induction false} FullStream(env: Env, files: seq<FileEntry>)
    ensures Stream(env, TreeOf(Filter(files, Full(env)))) == Stream(env, TreeOf(files))
  {
    if files != [] {
      var n := |files| - 1;
      var front, last := files[..n], files[n];
      FullStream(env, front);
      StreamNext(env, front, last);
      StreamNext(env, Filter(front, Full(env)), last);
      assert front + [last] == files;
      assert Filter(front, Full(env)) + [] == Filter(front, Full(env));
      hide Stream;
    }
  }

  lemma StreamNext(env: Env, files: seq<FileEntry>, f: FileEntry)
    ensures Stream(env, TreeOf(files + [f])) == Stream(env, TreeOf(files)) + env.blob(f.blob)
  {
    var a, b := Contents(env, TreeOf(files)), Contents(env, TreeOf(files + [f]));
    assert b == a + [env.blob(f.blob)];
    ConcatSnoc(a, env.blob(f.blob));
  }

  /** A tree whose files that hold bytes list the base's first, and in the base's
      order, keeps its stream through a delta. */
  lemma InOrderKeepsStream(env: Env, base: seq<FileEntry>, tree: seq<TreeFile>)
    requires DistinctFiles(base) && DistinctFiles(EntriesOf(tree)) && InOrder(base, FullPaths(env, tree))
    ensures Stream(env, InDeltaOrder(base, tree)) == Stream(env, tree)
  {
    hide Stream, Reordered, InOrder, DistinctFiles;
    var files := EntriesOf(tree);
    FullPathsAre(env, tree);
    FilteredDistinct(env, files);
    OrderKept(base, Filter(files, Full(env)));
    ReorderedFiltered(base, files, Full(env));
    FullStream(env, Reordered(base, files));
    FullStream(env, files);
    assert TreeOf(files) == tree;
  }

  lemma FilteredDistinct(env: Env, files: seq<FileEntry>)
    requires DistinctFiles(files)
    ensures DistinctFiles(Filter(files, Full(env)))
  {
    FilterDistinct(files, Full(env));
  }

  /** That order is not needed: a file added before one with the same bytes comes
      back after it, and the stream is the same. */
  lemma EqualContents(env: Env, a: TreeFile, b: TreeFile, c: TreeFile, was: FileEntry)
    requires a.path != b.path && a.path != c.path && b.path != c.path && was.path == c.path
    requires env.blob(b.oid) == env.blob(c.oid) != []
    ensures var base, tree := EntriesOf([a]) + [was], [a, b, c];
      && InDeltaOrder(base, tree) == [a, c, b]
      && Stream(env, InDeltaOrder(base, tree)) == Stream(env, tree)
      && !InOrder(base, FullPaths(env, tree))
  {
    var base, tree := EntriesOf([a]) + [was], [a, b, c];
    ThreeStream(env, a, b, c);
    ThreePaths(env, a, b, c);
    ThreeBack(a, b, c, was);
    NotInOrder(base, if env.blob(a.oid) != [] then [a.path] else [], b.path, c.path);
    hide *;
  }

  lemma NotInOrder(base: seq<FileEntry>, before: seq<Bytes>, p: Bytes, q: Bytes)
    requires p !in PathSet(base) && q in PathSet(base)
    ensures !InOrder(base, before + [p, q])
  {
    var paths, n := before + [p, q], |before|;
    assert paths[n] == p && paths[n + 1] == q;
  }

  lemma ThreeBack(a: TreeFile, b: TreeFile, c: TreeFile, was: FileEntry)
    requires a.path != b.path && a.path != c.path && b.path != c.path && was.path == c.path
    ensures InDeltaOrder(EntriesOf([a]) + [was], [a, b, c]) == [a, c, b]
    ensures was.path in PathSet(EntriesOf([a]) + [was]) && b.path !in PathSet(EntriesOf([a]) + [was])
  {
    hide Reordered;
    var base, files := EntriesOf([a]) + [was], EntriesOf([a, b, c]);
    assert base == [files[0], was] && files == [files[0], files[1], files[2]];
    AddedComesLast(files[0], files[1], files[2], was);
    assert base[1].path == was.path;
  }

  lemma ThreePaths(env: Env, a: TreeFile, b: TreeFile, c: TreeFile)
    requires env.blob(b.oid) != [] && env.blob(c.oid) != []
    ensures FullPaths(env, [a, b, c]) == (if env.blob(a.oid) != [] then [a.path] else []) + [b.path, c.path]
  {
    assert [a, b, c][..2] == [a, b] && [a, b][..1] == [a] && [a][..0] == [];
    assert FullPaths(env, [a]) == [] + if env.blob(a.oid) != [] then [a.path] else [];
    assert FullPaths(env, [a, b]) == FullPaths(env, [a]) + [b.path];
  }

  lemma ThreeStream(env: Env, a: TreeFile, b: TreeFile, c: TreeFile)
    requires env.blob(b.oid) == env.blob(c.oid)
    ensures Stream(env, [a, c, b]) == Stream(env, [a, b, c])
  {
    assert Contents(env, [a, c, b]) == Contents(env, [a, b, c]);
  }
}
