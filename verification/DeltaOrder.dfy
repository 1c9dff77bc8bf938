/** What a stored delta gives back, and in which order. */
module DeltaOrders {
  import opened Clonepack
  import opened Seqs
  import opened Fragments
  import opened Archives
  import opened Manifests
  import opened Listings
  import opened Deltas

  lemma {:induction false} OnceEach(files: seq<FileEntry>, x: FileEntry)
    requires DistinctFiles(files)
    ensures multiset(files)[x] == if x in files then 1 else 0
  {
    if files != [] {
      var n := |files| - 1;
      OnceEach(files[..n], x);
      assert files == files[..n] + [files[n]];
    }
  }

  /** What comes back is a permutation of the table. */
  lemma ReorderedPermutes(base: seq<FileEntry>, files: seq<FileEntry>)
    requires DistinctFiles(base) && DistinctFiles(files)
    ensures multiset(Reordered(base, files)) == multiset(files)
    ensures |Reordered(base, files)| == |files|
  {
    var back := Reordered(base, files);
    hide Reordered, DistinctFiles;
    ReorderedDistinct(base, files);
    forall x ensures multiset(back)[x] == multiset(files)[x] {
      ReorderedHas(base, files, x);
      OnceEach(back, x);
      OnceEach(files, x);
    }
    assert |multiset(back)| == |back| && |multiset(files)| == |files|;
  }

  /** Distinct paths among files and gitlinks. */
  lemma PathsDistinct(m: Metadata)
    ensures Distinct(Paths(m)) <==>
      && DistinctFiles(m.files) && Distinct(m.gitlinks)
      && forall i, j :: 0 <= i < |m.files| && 0 <= j < |m.gitlinks| ==> m.files[i].path != m.gitlinks[j]
  {
    var ps, n := Paths(m), |m.files|;
    assert forall i :: 0 <= i < n ==> ps[i] == m.files[i].path;
    assert forall j :: 0 <= j < |m.gitlinks| ==> ps[n + j] == m.gitlinks[j];
    if Distinct(ps) {
      forall i, j | 0 <= i < j < n ensures m.files[i].path != m.files[j].path {
        assert ps[i] != ps[j];
      }
      forall i, j | 0 <= i < j < |m.gitlinks| ensures m.gitlinks[i] != m.gitlinks[j] {
        assert ps[n + i] != ps[n + j];
      }
      forall i, j | 0 <= i < n && 0 <= j < |m.gitlinks| ensures m.files[i].path != m.gitlinks[j] {
        assert ps[i] != ps[n + j];
      }
    }
  }

  /** A valid table is valid in any order of its files. */
  lemma ReorderedValid(base: seq<FileEntry>, table: Metadata, safe: Bytes -> bool)
    requires DistinctFiles(base) && GeometryOk(table, safe)
    ensures GeometryOk(table.(files := Reordered(base, table.files)), safe)
  {
    hide FileOk, Chained, Reordered;
    var back := table.(files := Reordered(base, table.files));
    PathsDistinct(table);
    PathsDistinct(back);
    ReorderedDistinct(base, table.files);
    forall i | 0 <= i < |back.files|
      ensures FileOk(back.files[i], table.frames, safe)
      ensures forall j :: 0 <= j < |table.gitlinks| ==> back.files[i].path != table.gitlinks[j]
    {
      ReorderedHas(base, table.files, back.files[i]);
      var k :| 0 <= k < |table.files| && table.files[k] == back.files[i];
    }
  }

  lemma RemovedDistinct(d: MetadataDelta, base: Metadata, table: Metadata)
    requires IsDelta(d, base, table) && DistinctFiles(base.files)
    ensures Distinct(d.removed)
  {
    FilterDistinct(base.files, (f: FileEntry) => Lookup(table.files, f.path).None?);
  }

  /** The delta between two tables, on any frame map of the base's length, applied
      to the base succeeds and gives back the table's frames, gitlinks and
      files: first those the base has, in its order, then the others. */
  lemma RoundTrip(base: Metadata, frameMap: seq<nat>, table: Metadata, safe: Bytes -> bool)
    requires DistinctFiles(base.files) && GeometryOk(table, safe) && |frameMap| == |base.frames|
    ensures Between(base, frameMap, table).Ok?
    ensures Applied(Between(base, frameMap, table).value, base, safe)
         == Ok(Metadata(table.frames, Reordered(base.files, table.files), table.gitlinks))
  {
    var d := Between(base, frameMap, table).value;
    PathsDistinct(table);
    PatchAllRight(d, base, table, |base.files|);
    assert base.files[..|base.files|] == base.files;
    RemovedDistinct(d, base, table);
    DistinctCount(d.removed);
    AddedRight(d, base, table);
    ReorderedValid(base.files, table, safe);
    hide Shared, Added, PatchAll, RemovedSeen, GeometryOk, DistinctFiles;
  }

  /** As a map from paths to entries the round trip is exact. */
  lemma SameAtEveryPath(base: seq<FileEntry>, files: seq<FileEntry>, path: Bytes)
    requires DistinctFiles(base) && DistinctFiles(files)
    ensures Lookup(Reordered(base, files), path) == Lookup(files, path)
  {
    var back := Reordered(base, files);
    hide Reordered, DistinctFiles;
    ReorderedDistinct(base, files);
    LookupSound(back, path);
    LookupSound(files, path);
    var a, b := Lookup(back, path), Lookup(files, path);
    if a.Some? {
      ReorderedHas(base, files, a.value);
      LookupIs(files, a.value);
    }
    if b.Some? {
      ReorderedHas(base, files, b.value);
      LookupIs(back, b.value);
    }
  }

  /** The paths the base has come first, and in the base's order. */
  ghost predicate InOrder(base: seq<FileEntry>, paths: seq<Bytes>) {
    forall i, j :: 0 <= i < j < |paths| && paths[j] in PathSet(base) ==>
      paths[i] in PathSet(base) && Position(base, paths[i]) < Position(base, paths[j])
  }

  /** The order comes back too exactly when the table is in that order. */
  lemma OrderKept(base: seq<FileEntry>, files: seq<FileEntry>)
    requires DistinctFiles(base) && DistinctFiles(files)
    ensures Reordered(base, files) == files <==> InOrder(base, PathsOf(files))
  {
    var key := (f: FileEntry) => Rank(base, files, f.path);
    ReorderedOrder(base, files);
    assert InOrder(base, PathsOf(files)) <==> Increasing(files, key) by {
      InOrderIncreasing(base, files);
    }
    if InOrder(base, PathsOf(files)) {
      forall x ensures x in Reordered(base, files) <==> x in files {
        ReorderedHas(base, files, x);
      }
      IncreasingSame(Reordered(base, files), files, key);
    }
  }

  lemma InOrderIncreasing(base: seq<FileEntry>, files: seq<FileEntry>)
    requires DistinctFiles(files)
    ensures InOrder(base, PathsOf(files)) <==> Increasing(files, (f: FileEntry) => Rank(base, files, f.path))
  {
    var key := (f: FileEntry) => Rank(base, files, f.path);
    hide Rank, DistinctFiles, PathSet, Position;
    assert forall i :: 0 <= i < |files| ==> PathsOf(files)[i] == files[i].path;
    if Increasing(files, key) {
      forall i, j | 0 <= i < j < |files| && files[j].path in PathSet(base)
        ensures files[i].path in PathSet(base) && Position(base, files[i].path) < Position(base, files[j].path)
      {
        RankLess(base, files, i, j);
        assert key(files[i]) < key(files[j]);
      }
    } else {
      var i, j :| 0 <= i < j < |files| && key(files[i]) >= key(files[j]);
      RankLess(base, files, i, j);
      assert PathsOf(files)[j] in PathSet(base);
    }
  }

  lemma RankLess(base: seq<FileEntry>, files: seq<FileEntry>, i: nat, j: nat)
    requires DistinctFiles(files) && i < j < |files|
    ensures Rank(base, files, files[i].path) < Rank(base, files, files[j].path) <==>
      (files[j].path in PathSet(base) ==>
        files[i].path in PathSet(base) && Position(base, files[i].path) < Position(base, files[j].path))
  {
    PositionIs(files, i);
    PositionIs(files, j);
    hide DistinctFiles, PathSet;
  }

  /** The files that hold bytes. */
  function HoldsBytes(f: FileEntry): bool { Length(f.fragments) > 0 }

  function NonEmpties(files: seq<FileEntry>): seq<FileEntry> {
    Filter(files, HoldsBytes)
  }

  lemma {:induction false} NonEmptyLength(files: seq<FileEntry>)
    ensures Sum(FileLens(NonEmpties(files))) == Sum(FileLens(files))
  {
    if files != [] {
      var n := |files| - 1;
      NonEmptyLength(files[..n]);
      LensSnoc(files[..n], files[n]);
      LensSnoc(NonEmpties(files[..n]), files[n]);
      assert files == files[..n] + [files[n]];
      if !HoldsBytes(files[n]) {
        assert NonEmpties(files) == NonEmpties(files[..n]);
      }
    }
  }

  lemma LensSnoc(files: seq<FileEntry>, f: FileEntry)
    ensures Sum(FileLens(files + [f])) == Sum(FileLens(files)) + Length(f.fragments)
  {
    assert FileLens(files + [f]) == FileLens(files) + [Length(f.fragments)];
    SumAppend(FileLens(files), [Length(f.fragments)]);
  }

  ghost predicate AtPlace(f: FileEntry, raws: seq<Bytes>, start: nat) {
    Spells(f.fragments, BoundsOf(raws), start, start + Length(f.fragments))
  }

  lemma LensPrefix(files: seq<FileEntry>, i: nat)
    requires i <= |files|
    ensures FileLens(files)[..i] == FileLens(files[..i])
  {}

  /** Empty files do not matter to packing. */
  lemma PackedNonEmpties(files: seq<FileEntry>, raws: seq<Bytes>)
    ensures Packed(files, raws) <==> Packed(NonEmpties(files), raws)
  {
    var ne := NonEmpties(files);
    NonEmptyLength(files);
    hide Spells, BoundsOf, Sum, Concat;
    if Packed(ne, raws) {
      forall i | 0 <= i < |files| && HoldsBytes(files[i]) ensures AtPlace(files[i], raws, Sum(FileLens(files)[..i])) {
        FilterAt(files, HoldsBytes, i);
        NonEmptyLength(files[..i]);
        LensPrefix(files, i);
        var k := |NonEmpties(files[..i])|;
        assert ne[..k] == NonEmpties(files[..i]);
        LensPrefix(ne, k);
        assert AtPlace(ne[k], raws, Sum(FileLens(ne)[..k]));
      }
    }
    if Packed(files, raws) {
      forall k | 0 <= k < |ne| ensures AtPlace(ne[k], raws, Sum(FileLens(ne)[..k])) {
        var i := FilterFrom(files, HoldsBytes, k);
        NonEmptyLength(files[..i]);
        LensPrefix(files, i);
        LensPrefix(ne, k);
        assert AtPlace(files[i], raws, Sum(FileLens(files)[..i]));
      }
    }
  }

  /** Where a file that holds bytes starts in the stream. */
  ghost function Place(f: FileEntry, raws: seq<Bytes>): int {
    if f.fragments != [] && f.fragments[0].frameIndex < |raws|
    then BoundsOf(raws)[f.fragments[0].frameIndex].lo + f.fragments[0].frameOffset else -1
  }

  lemma PlaceIs(f: FileEntry, raws: seq<Bytes>, start: nat)
    requires HoldsBytes(f) && AtPlace(f, raws, start)
    ensures Place(f, raws) == start
  {}

  /** Packed files that hold bytes are in the order of their places. */
  lemma PackedOrder(files: seq<FileEntry>, raws: seq<Bytes>)
    requires Packed(files, raws) && forall i :: 0 <= i < |files| ==> HoldsBytes(files[i])
    ensures forall i, j :: 0 <= i < j < |files| ==> Place(files[i], raws) < Place(files[j], raws)
  {
    hide Spells, BoundsOf, Place, Concat;
    var lens := FileLens(files);
    forall i, j | 0 <= i < j < |files| ensures Place(files[i], raws) < Place(files[j], raws) {
      assert AtPlace(files[i], raws, Sum(lens[..i])) && AtPlace(files[j], raws, Sum(lens[..j]));
      PlaceIs(files[i], raws, Sum(lens[..i]));
      PlaceIs(files[j], raws, Sum(lens[..j]));
      SumNext(lens, i);
      SumMonotone(lens[..j], i + 1, j);
      assert lens[..j][..i + 1] == lens[..i + 1] && lens[..j][..j] == lens[..j];
    }
  }

  /** Two lists of the same files are both packed only when the files that hold
      bytes are in the same order. */
  lemma PackedSameOrder(files: seq<FileEntry>, others: seq<FileEntry>, raws: seq<Bytes>)
    requires Packed(files, raws) && forall x :: x in files <==> x in others
    ensures Packed(others, raws) <==> NonEmpties(others) == NonEmpties(files)
  {
    hide Packed;
    PackedNonEmpties(files, raws);
    PackedNonEmpties(others, raws);
    if Packed(others, raws) {
      var a, b := NonEmpties(files), NonEmpties(others);
      AllHold(files);
      AllHold(others);
      PackedOrder(a, raws);
      PackedOrder(b, raws);
      forall x ensures x in a <==> x in b {
        FilterHas(files, HoldsBytes, x);
        FilterHas(others, HoldsBytes, x);
      }
      var key := SomePlace(raws);
      hide Place;
      IncreasingSame(a, b, key);
    }
  }

  ghost function SomePlace(raws: seq<Bytes>): (key: FileEntry -> int)
    ensures forall f :: key(f) == Place(f, raws)
  {
    (f: FileEntry) => Place(f, raws)
  }

  lemma AllHold(files: seq<FileEntry>)
    ensures forall i :: 0 <= i < |NonEmpties(files)| ==> HoldsBytes(NonEmpties(files)[i])
  {
    forall i | 0 <= i < |NonEmpties(files)| ensures HoldsBytes(NonEmpties(files)[i]) {
      FilterHas(files, HoldsBytes, NonEmpties(files)[i]);
    }
  }

  /** Filtering and reordering can be done in either order. */
  lemma {:induction false} SharedFiltered(base: seq<FileEntry>, files: seq<FileEntry>, keep: FileEntry -> bool)
    requires DistinctFiles(files)
    ensures Filter(Shared(base, files), keep) == Shared(base, Filter(files, keep))
  {
    if base != [] {
      var n := |base| - 1;
      SharedFiltered(base[..n], files, keep);
      LookupFiltered(files, keep, base[n].path);
      var front := Shared(base[..n], files);
      var found := Lookup(files, base[n].path);
      if found.Some? {
        assert (front + [found.value])[..|front|] == front;
      } else {
        assert Shared(base, files) == front;
      }
    }
  }

  lemma {:induction false} FilterAppend<T>(a: seq<T>, b: seq<T>, keep: T -> bool)
    ensures Filter(a + b, keep) == Filter(a, keep) + Filter(b, keep)
  {
    if b == [] {
      assert a + b == a;
    } else {
      var n := |b| - 1;
      FilterAppend(a, b[..n], keep);
      assert (a + b)[..|a + b| - 1] == a + b[..n];
    }
  }

  lemma ReorderedFiltered(base: seq<FileEntry>, files: seq<FileEntry>, keep: FileEntry -> bool)
    requires DistinctFiles(files)
    ensures Filter(Reordered(base, files), keep) == Reordered(base, Filter(files, keep))
  {
    var absent := (f: FileEntry) => Lookup(base, f.path).None?;
    var both := (f: FileEntry) => absent(f) && keep(f);
    FilterAppend(Shared(base, files), Added(base, files), keep);
    SharedFiltered(base, files, keep);
    FilterTwice(files, absent, keep, both);
    FilterTwice(files, keep, absent, both);
  }

  /** A packed table read back from its delta is packed exactly when its files that
      hold bytes are in the order the delta gives: those of the base first and in
      the base's order. */
  lemma DeltaKeepsPacked(base: seq<FileEntry>, files: seq<FileEntry>, raws: seq<Bytes>)
    requires DistinctFiles(base) && DistinctFiles(files) && Packed(files, raws)
    ensures Packed(Reordered(base, files), raws) <==> InOrder(base, PathsOf(NonEmpties(files)))
  {
    hide Packed, Reordered, InOrder, DistinctFiles;
    forall x ensures x in files <==> x in Reordered(base, files) {
      ReorderedHas(base, files, x);
    }
    PackedSameOrder(files, Reordered(base, files), raws);
    ReorderedFiltered(base, files, HoldsBytes);
    NonEmptiesDistinct(files);
    OrderKept(base, NonEmpties(files));
  }

  lemma NonEmptiesDistinct(files: seq<FileEntry>)
    requires DistinctFiles(files)
    ensures DistinctFiles(NonEmpties(files))
  {
    FilterDistinct(files, HoldsBytes);
  }

  /** A file of one byte in the only frame. */
  function OneByte(name: Byte, offset: nat): FileEntry {
    FileEntry([name], 0x81a4, seq(20, _ => name), [Fragment(0, offset, 1)])
  }

  lemma LookupSnoc(files: seq<FileEntry>, f: FileEntry, path: Bytes)
    ensures Lookup(files + [f], path) == if f.path == path then Some(f) else Lookup(files, path)
  {
    assert (files + [f])[..|files|] == files;
  }

  lemma AddedSnoc(base: seq<FileEntry>, files: seq<FileEntry>, f: FileEntry)
    ensures Added(base, files + [f]) == Added(base, files) + if Lookup(base, f.path).None? then [f] else []
  {
    assert (files + [f])[..|files|] == files;
  }

  lemma SharedSnoc(base: seq<FileEntry>, was: FileEntry, files: seq<FileEntry>)
    ensures Shared(base + [was], files) == Shared(base, files) + if Lookup(files, was.path).Some?
      then [Lookup(files, was.path).value] else []
  {
    assert (base + [was])[..|base|] == base;
  }

  lemma NothingListed(files: seq<FileEntry>, path: Bytes)
    ensures Lookup([], path) == None && Shared([], files) == [] && Added(files, []) == []
  {}

  /** A file added between two others comes back after them. */
  lemma AddedComesLast(a: FileEntry, b: FileEntry, c: FileEntry, was: FileEntry)
    requires a.path != b.path && a.path != c.path && b.path != c.path && was.path == c.path
    ensures Reordered([a, was], [a, b, c]) == [a, c, b]
  {
    AddedOfThree(a, b, c, was);
    SharedOfThree(a, b, c, was);
    hide Lookup, Shared, Added;
  }

  lemma AddedOfThree(a: FileEntry, b: FileEntry, c: FileEntry, was: FileEntry)
    requires a.path != b.path && b.path != c.path && was.path == c.path
    ensures Added([a, was], [a, b, c]) == [b]
  {
    hide *;
    var base: seq<FileEntry>, none: seq<FileEntry> := [a, was], [];
    assert none + [a] == [a] && [a] + [was] == base && [a] + [b] == [a, b] && [a, b] + [c] == [a, b, c];
    NothingListed(base, b.path);
    LookupSnoc([], a, a.path);
    LookupSnoc([a], was, a.path);
    LookupSnoc([], a, b.path);
    LookupSnoc([a], was, b.path);
    LookupSnoc([a], was, c.path);
    AddedSnoc(base, [], a);
    AddedSnoc(base, [a], b);
    AddedSnoc(base, [a, b], c);
  }

  lemma SharedOfThree(a: FileEntry, b: FileEntry, c: FileEntry, was: FileEntry)
    requires a.path != b.path && a.path != c.path && was.path == c.path
    ensures Shared([a, was], [a, b, c]) == [a, c]
  {
    hide *;
    var files: seq<FileEntry>, none: seq<FileEntry> := [a, b, c], [];
    assert none + [a] == [a] && [a] + [was] == [a, was] && [a] + [b] == [a, b] && [a, b] + [c] == files;
    NothingListed(files, a.path);
    LookupSnoc([], a, a.path);
    LookupSnoc([a], b, a.path);
    LookupSnoc([a, b], c, a.path);
    LookupSnoc([a, b], c, c.path);
    SharedSnoc([], a, files);
    SharedSnoc([a], was, files);
  }

  /** A file added between two others: the table is packed and what its delta
      gives back has the same total length, but is not packed, and the sum of
      the lengths before the last file is not where its byte is. */
  lemma AddedBetween()
    ensures var base := [OneByte(1, 0), OneByte(3, 1)];
      var files := [OneByte(1, 0), OneByte(2, 1), OneByte(3, 2)];
      var raws := [[7, 8, 9]];
      var back := Reordered(base, files);
      && DistinctFiles(base) && DistinctFiles(files) && Packed(files, raws)
      && !Packed(back, raws) && Sum(FileLens(back)) == |Concat(raws)|
      && back[1].path == [3] && Sum(FileLens(back)[..1]) == 1
      && Concat(raws)[1..2] == [8] && Read(back[1].fragments, raws) == [9]
  {
    hide *;
    var a, b, c, was := OneByte(1, 0), OneByte(2, 1), OneByte(3, 2), OneByte(3, 1);
    var raws: seq<Bytes> := [[7, 8, 9]];
    OneBytes(a, b, c, was);
    AddedComesLast(a, b, c, was);
    OneFrameOfThree(raws);
    PackedInThree([a, b, c], [0, 1, 2], raws);
    PackedInThree([a, c, b], [0, 2, 1], raws);
    assert [0, 2, 1][1] != 1;
    OneSpells(2, 0, raws);
  }

  lemma OneBytes(a: FileEntry, b: FileEntry, c: FileEntry, was: FileEntry)
    requires a == OneByte(1, 0) && b == OneByte(2, 1) && c == OneByte(3, 2) && was == OneByte(3, 1)
    ensures a.path != b.path && a.path != c.path && b.path != c.path && was.path == c.path == [3]
    ensures a.fragments == [Fragment(0, 0, 1)] && b.fragments == [Fragment(0, 1, 1)]
      && c.fragments == [Fragment(0, 2, 1)]
    ensures DistinctFiles([a, was]) && DistinctFiles([a, b, c])
  {
    assert a.path[0] != b.path[0] && a.path[0] != c.path[0] && b.path[0] != c.path[0];
  }

  lemma OneFrameOfThree(raws: seq<Bytes>)
    requires raws == [[7, 8, 9]]
    ensures Concat(raws) == [7, 8, 9] && BoundsOf(raws) == [Range(0, 3)]
  {
    assert raws[1..] == [] && raws[..0] == [] && raws[..1] == raws;
    assert Concat(raws) == [7, 8, 9];
  }

  lemma OneSpells(o: nat, at: nat, raws: seq<Bytes>)
    requires raws == [[7, 8, 9]] && at < 3
    ensures Spells([Fragment(0, o, 1)], BoundsOf(raws), at, at + 1) <==> o == at
    ensures Length([Fragment(0, o, 1)]) == 1
    ensures o < 3 ==> Read([Fragment(0, o, 1)], raws) == [7 + o]
  {
    OneFrameOfThree(raws);
    hide BoundsOf;
    var frags := [Fragment(0, o, 1)];
    assert frags[1..] == [];
    assert Piece(frags[0], raws) + [] == Piece(frags[0], raws);
  }

  /** Three files of one byte are packed when their offsets count up. */
  lemma PackedInThree(files: seq<FileEntry>, at: seq<nat>, raws: seq<Bytes>)
    requires raws == [[7, 8, 9]] && |files| == |at| == 3 && forall i :: 0 <= i < 3 ==>
      files[i].fragments == [Fragment(0, at[i], 1)]
    ensures FileLens(files) == [1, 1, 1] && Sum(FileLens(files)) == 3 && Sum(FileLens(files)[..1]) == 1
      && |Concat(raws)| == 3
    ensures Packed(files, raws) <==> forall i :: 0 <= i < 3 ==> at[i] == i
  {
    OneFrameOfThree(raws);
    hide BoundsOf, Concat, Spells, Length;
    var ones := [1, 1, 1];
    forall i | 0 <= i < 3
      ensures Length(files[i].fragments) == 1 && Sum(ones[..i]) == i
      ensures Spells(files[i].fragments, BoundsOf(raws), i, i + 1) <==> at[i] == i
    {
      OneSpells(at[i], i, raws);
      assert ones[..1] == [1] && ones[..2] == [1, 1] && ones[..0] == [];
      assert [1][1..] == [] && [1, 1][1..] == [1];
      assert Sum([1]) == 1;
    }
    assert FileLens(files) == ones;
    assert ones[1..] == [1, 1] && [1, 1][1..] == [1] && Sum([1]) == 1 && Sum([1, 1]) == 2;
    hide Sum;
    if Packed(files, raws) {
      forall i | 0 <= i < 3 ensures at[i] == i {
        assert Length(files[i].fragments) > 0;
      }
    }
  }
}
