/** Files tables stored as changes from an earlier one (rust/src/manifest.rs,
    `MetadataDelta`). */
module Deltas {
  import opened Clonepack
  import opened Manifests
  import opened Listings

  /** `baseFrames[k]` is one more than the index that frame `k` of the base has now,
      and 0 for a frame that is gone. */
  datatype MetadataDelta = MetadataDelta(
    frames: seq<FrameInfo>, files: seq<FileEntry>, removed: seq<Bytes>, gitlinks: seq<Bytes>, baseFrames: seq<nat>)

  predicate SameFragment(frameMap: seq<nat>, was: Fragment, now: Fragment) {
    && was.frameIndex < |frameMap| && frameMap[was.frameIndex] == now.frameIndex + 1
    && was.frameOffset == now.frameOffset && was.rawLen == now.rawLen
  }

  /** The entry is the base's with its frames renumbered. */
  predicate SameEntry(frameMap: seq<nat>, was: FileEntry, now: FileEntry) {
    && was.mode == now.mode && was.blob == now.blob && |was.fragments| == |now.fragments|
    && forall i :: 0 <= i < |was.fragments| ==> SameFragment(frameMap, was.fragments[i], now.fragments[i])
  }

  predicate KeptFrom(base: seq<FileEntry>, frameMap: seq<nat>, entry: FileEntry) {
    var was := Lookup(base, entry.path);
    was.Some? && SameEntry(frameMap, was.value, entry)
  }

  function PathsOf(files: seq<FileEntry>): seq<Bytes> {
    seq(|files|, i requires 0 <= i < |files| => files[i].path)
  }

  /** What to store of `table` when `base` is stored already. */
  function Between(base: Metadata, frameMap: seq<nat>, table: Metadata): Result<MetadataDelta> {
    if |frameMap| != |base.frames| then Err(BadDelta) else
      Ok(MetadataDelta(
        table.frames,
        Filter(table.files, (f: FileEntry) => !KeptFrom(base.files, frameMap, f)),
        PathsOf(Filter(base.files, (f: FileEntry) => Lookup(table.files, f.path).None?)),
        table.gitlinks,
        frameMap))
  }

  function MoveFragments(frags: seq<Fragment>, frameMap: seq<nat>): Result<seq<Fragment>> {
    if frags == [] then Ok([]) else
      var front := MoveFragments(frags[..|frags| - 1], frameMap);
      var f := frags[|frags| - 1];
      if front.Err? then front
      else if f.frameIndex >= |frameMap| || frameMap[f.frameIndex] == 0 then Err(BadDelta)
      else Ok(front.value + [f.(frameIndex := frameMap[f.frameIndex] - 1)])
  }

  /** What a delta makes of one base file: nothing, a changed file, or the file
      with its frames renumbered. */
  function Patch(d: MetadataDelta, entry: FileEntry): Result<seq<FileEntry>> {
    if entry.path in d.removed then Ok([]) else
      var changed := Lookup(d.files, entry.path);
      if changed.Some? then Ok([changed.value]) else
        var moved := MoveFragments(entry.fragments, d.baseFrames);
        if moved.Err? then Err(moved.error) else Ok([entry.(fragments := moved.value)])
  }

  function PatchAll(d: MetadataDelta, files: seq<FileEntry>): Result<seq<FileEntry>> {
    if files == [] then Ok([]) else
      var front := PatchAll(d, files[..|files| - 1]);
      if front.Err? then front else
        var last := Patch(d, files[|files| - 1]);
        if last.Err? then last else Ok(front.value + last.value)
  }

  /** How many of the files the delta removes. */
  function RemovedSeen(d: MetadataDelta, files: seq<FileEntry>): nat {
    |Filter(files, (f: FileEntry) => f.path in d.removed)|
  }

  /** The delta's file takes the place of one of the base's. */
  predicate Placed(d: MetadataDelta, base: seq<FileEntry>, path: Bytes) {
    path !in d.removed && Lookup(base, path).Some? && Lookup(d.files, path).Some?
  }

  /** The table a delta makes of `base`. */
  ghost function Applied(d: MetadataDelta, base: Metadata, safe: Bytes -> bool): Result<Metadata> {
    var files := PatchAll(d, base.files);
    if |d.baseFrames| != |base.frames| || files.Err?
      || RemovedSeen(d, base.files) != |(set p | p in d.removed)| then Err(BadDelta) else
      var table := Metadata(d.frames, files.value + Filter(d.files, (f: FileEntry) => !Placed(d, base.files, f.path)),
        d.gitlinks);
      if GeometryOk(table, safe) then Ok(table) else Err(BadGeometry)
  }

  method MoveEntry(entry: FileEntry, frameMap: seq<nat>) returns (r: Result<FileEntry>)
    ensures var moved := MoveFragments(entry.fragments, frameMap);
      r == if moved.Err? then Err(moved.error) else Ok(entry.(fragments := moved.value))
  {
    var frags: seq<Fragment> := [];
    for i := 0 to |entry.fragments|
      invariant MoveFragments(entry.fragments[..i], frameMap) == Ok(frags)
    {
      assert entry.fragments[..i + 1][..i] == entry.fragments[..i];
      var f := entry.fragments[i];
      if f.frameIndex >= |frameMap| || frameMap[f.frameIndex] == 0 {
        MoveStops(entry.fragments, frameMap, i + 1);
        return Err(BadDelta);
      }
      frags := frags + [f.(frameIndex := frameMap[f.frameIndex] - 1)];
    }
    assert entry.fragments[..|entry.fragments|] == entry.fragments;
    return Ok(entry.(fragments := frags));
  }

  lemma {:induction false} MoveStops(frags: seq<Fragment>, frameMap: seq<nat>, n: nat)
    requires n <= |frags| && MoveFragments(frags[..n], frameMap).Err?
    ensures MoveFragments(frags, frameMap) == MoveFragments(frags[..n], frameMap)
  {
    if n == |frags| {
      assert frags[..n] == frags;
    } else {
      assert frags[..|frags| - 1][..n] == frags[..n];
      MoveStops(frags[..|frags| - 1], frameMap, n);
    }
  }

  lemma {:induction false} PatchStops(d: MetadataDelta, files: seq<FileEntry>, n: nat)
    requires n <= |files| && PatchAll(d, files[..n]).Err?
    ensures PatchAll(d, files) == PatchAll(d, files[..n])
  {
    if n == |files| {
      assert files[..n] == files;
    } else {
      assert files[..|files| - 1][..n] == files[..n];
      PatchStops(d, files[..|files| - 1], n);
    }
  }

  /** One more base file. */
  lemma NextFile(d: MetadataDelta, files: seq<FileEntry>, i: nat)
    requires i < |files|
    ensures PatchAll(d, files[..i + 1]) ==
      var front := PatchAll(d, files[..i]);
      if front.Err? then front else
        var last := Patch(d, files[i]);
        if last.Err? then last else Ok(front.value + last.value)
    ensures RemovedSeen(d, files[..i + 1]) == RemovedSeen(d, files[..i]) + if files[i].path in d.removed then 1 else 0
    ensures forall p :: Placed(d, files[..i + 1], p) <==>
      Placed(d, files[..i], p) || (p == files[i].path && p !in d.removed && Lookup(d.files, p).Some?)
  {
    assert files[..i + 1][..i] == files[..i];
  }

  /** Make the table again from `base`; every way it can fail is in `Applied`. */
  method Apply(d: MetadataDelta, base: Metadata, safe: Bytes -> bool) returns (r: Result<Metadata>)
    ensures r == Applied(d, base, safe)
  {
    hide PatchAll, RemovedSeen, Placed, Lookup, GeometryOk, Filter, Patch, MoveFragments;
    if |d.baseFrames| != |base.frames| {
      return Err(BadDelta);
    }
    var removed := set p | p in d.removed;
    var files: seq<FileEntry>, placed: set<Bytes>, seen: nat := [], {}, 0;
    NoFiles(d, base.files);
    for i := 0 to |base.files|
      invariant PatchAll(d, base.files[..i]) == Ok(files)
      invariant seen == RemovedSeen(d, base.files[..i])
      invariant forall p :: p in placed <==> Placed(d, base.files[..i], p)
    {
      NextFile(d, base.files, i);
      var entry := base.files[i];
      PatchIs(d, entry);
      var changed := Lookup(d.files, entry.path);
      if entry.path in removed {
        seen := seen + 1;
        assert files + [] == files;
      } else if changed.Some? {
        placed := placed + {entry.path};
        files := files + [changed.value];
      } else {
        var moved := MoveEntry(entry, d.baseFrames);
        if moved.Err? {
          PatchStops(d, base.files, i + 1);
          return Err(moved.error);
        }
        files := files + [moved.value];
      }
    }
    assert base.files[..|base.files|] == base.files;
    if seen != |removed| {
      return Err(BadDelta);
    }
    var added := KeepUnplaced(d.files, placed);
    FilterSame(d.files, (f: FileEntry) => f.path !in placed, (f: FileEntry) => !Placed(d, base.files, f.path));
    var table := Metadata(d.frames, files + added, d.gitlinks);
    var valid := ValidateGeometry(table, safe);
    return if valid.Ok? then Ok(table) else Err(valid.error);
  }

  function KeepUnplaced(files: seq<FileEntry>, placed: set<Bytes>): seq<FileEntry> {
    Filter(files, (f: FileEntry) => f.path !in placed)
  }

  lemma NoFiles(d: MetadataDelta, files: seq<FileEntry>)
    ensures PatchAll(d, files[..0]) == Ok([]) && RemovedSeen(d, files[..0]) == 0
    ensures forall p :: !Placed(d, files[..0], p)
  {}

  lemma PatchIs(d: MetadataDelta, entry: FileEntry)
    ensures Patch(d, entry) ==
      if entry.path in d.removed then Ok([])
      else if Lookup(d.files, entry.path).Some? then Ok([Lookup(d.files, entry.path).value])
      else
        var moved := MoveFragments(entry.fragments, d.baseFrames);
        if moved.Err? then Err(moved.error) else Ok([entry.(fragments := moved.value)])
    ensures MoveFragments(entry.fragments, d.baseFrames).Err? ==>
      MoveFragments(entry.fragments, d.baseFrames).error == BadDelta
  {
    MoveError(entry.fragments, d.baseFrames);
  }

  lemma {:induction false} MoveError(frags: seq<Fragment>, frameMap: seq<nat>)
    ensures MoveFragments(frags, frameMap).Err? ==> MoveFragments(frags, frameMap).error == BadDelta
  {
    if frags != [] {
      MoveError(frags[..|frags| - 1], frameMap);
    }
  }

  lemma {:induction false} FilterSame<T>(s: seq<T>, p: T -> bool, q: T -> bool)
    requires forall i :: 0 <= i < |s| ==> p(s[i]) == q(s[i])
    ensures Filter(s, p) == Filter(s, q)
  {
    if s != [] {
      FilterSame(s[..|s| - 1], p, q);
    }
  }

  /** The table's files as they come back: those `base` also has, in its order,
      then the others. */
  function Shared(base: seq<FileEntry>, files: seq<FileEntry>): seq<FileEntry> {
    if base == [] then [] else
      var found := Lookup(files, base[|base| - 1].path);
      Shared(base[..|base| - 1], files) + if found.Some? then [found.value] else []
  }

  function Added(base: seq<FileEntry>, files: seq<FileEntry>): seq<FileEntry> {
    Filter(files, (f: FileEntry) => Lookup(base, f.path).None?)
  }

  function Reordered(base: seq<FileEntry>, files: seq<FileEntry>): seq<FileEntry> {
    Shared(base, files) + Added(base, files)
  }

  /** A kept entry's fragments are the base's, moved. */
  lemma {:induction false} MoveSame(was: seq<Fragment>, now: seq<Fragment>, frameMap: seq<nat>)
    requires |was| == |now| && forall i :: 0 <= i < |was| ==> SameFragment(frameMap, was[i], now[i])
    ensures MoveFragments(was, frameMap) == Ok(now)
  {
    if was != [] {
      var n := |was| - 1;
      MoveSame(was[..n], now[..n], frameMap);
      assert now == now[..n] + [now[n]];
      assert SameFragment(frameMap, was[n], now[n]);
    }
  }

  ghost predicate IsDelta(d: MetadataDelta, base: Metadata, table: Metadata) {
    Between(base, d.baseFrames, table) == Ok(d)
  }

  /** The removed paths are the base's that the table lacks. */
  lemma RemovedAre(d: MetadataDelta, base: Metadata, table: Metadata, p: Bytes)
    requires IsDelta(d, base, table)
    ensures p in d.removed <==> Lookup(base.files, p).Some? && Lookup(table.files, p).None?
  {
    var gone := (f: FileEntry) => Lookup(table.files, f.path).None?;
    var list := Filter(base.files, gone);
    LookupSound(base.files, p);
    if p in d.removed {
      var i :| 0 <= i < |d.removed| && d.removed[i] == p;
      FilterHas(base.files, gone, list[i]);
      var j :| 0 <= j < |base.files| && base.files[j] == list[i];
      assert base.files[j].path in PathSet(base.files);
    }
    if Lookup(base.files, p).Some? && Lookup(table.files, p).None? {
      var f := Lookup(base.files, p).value;
      FilterHas(base.files, gone, f);
      var i :| 0 <= i < |list| && list[i] == f;
      assert d.removed[i] == p;
    }
  }

  /** The changed files are the table's that are not kept. */
  lemma ChangedAre(d: MetadataDelta, base: Metadata, table: Metadata, p: Bytes)
    requires IsDelta(d, base, table) && DistinctFiles(table.files)
    ensures var now := Lookup(table.files, p);
      Lookup(d.files, p) == if now.Some? && !KeptFrom(base.files, d.baseFrames, now.value) then now else None
  {
    LookupFiltered(table.files, (f: FileEntry) => !KeptFrom(base.files, d.baseFrames, f), p);
  }

  /** Each base file becomes the table's file at its path, or nothing. */
  lemma PatchRight(d: MetadataDelta, base: Metadata, table: Metadata, entry: FileEntry)
    requires IsDelta(d, base, table) && DistinctFiles(base.files) && DistinctFiles(table.files) && entry in base.files
    ensures var now := Lookup(table.files, entry.path);
      Patch(d, entry) == Ok(if now.Some? then [now.value] else [])
  {
    RemovedAre(d, base, table, entry.path);
    ChangedAre(d, base, table, entry.path);
    LookupIs(base.files, entry);
    LookupSound(table.files, entry.path);
    var now := Lookup(table.files, entry.path);
    if now.Some? && KeptFrom(base.files, d.baseFrames, now.value) {
      MoveSame(entry.fragments, now.value.fragments, d.baseFrames);
    }
  }

  lemma {:induction false} PatchAllRight(d: MetadataDelta, base: Metadata, table: Metadata, n: nat)
    requires IsDelta(d, base, table) && DistinctFiles(base.files) && DistinctFiles(table.files) && n <= |base.files|
    ensures PatchAll(d, base.files[..n]) == Ok(Shared(base.files[..n], table.files))
    ensures RemovedSeen(d, base.files) == |d.removed|
  {
    hide IsDelta, Patch, Lookup, DistinctFiles;
    RemovedCount(d, base, table);
    if n > 0 {
      assert base.files[..n][..n - 1] == base.files[..n - 1];
      PatchAllRight(d, base, table, n - 1);
      PatchRight(d, base, table, base.files[n - 1]);
    }
  }

  lemma RemovedCount(d: MetadataDelta, base: Metadata, table: Metadata)
    requires IsDelta(d, base, table)
    ensures RemovedSeen(d, base.files) == |d.removed|
  {
    forall i | 0 <= i < |base.files|
      ensures base.files[i].path in d.removed <==> Lookup(table.files, base.files[i].path).None?
    {
      RemovedAre(d, base, table, base.files[i].path);
      LookupSound(base.files, base.files[i].path);
    }
    FilterSame(base.files, (f: FileEntry) => f.path in d.removed, (f: FileEntry) => Lookup(table.files, f.path).None?);
  }

  lemma {:induction false} DistinctCount(ps: seq<Bytes>)
    requires Distinct(ps)
    ensures |(set p | p in ps)| == |ps|
  {
    if ps != [] {
      var n := |ps| - 1;
      DistinctCount(ps[..n]);
      assert (set p | p in ps) == (set p | p in ps[..n]) + {ps[n]};
    }
  }

  /** Files that take no base file's place are those the base lacks. */
  lemma AddedRight(d: MetadataDelta, base: Metadata, table: Metadata)
    requires IsDelta(d, base, table) && DistinctFiles(base.files) && DistinctFiles(table.files)
    ensures Filter(d.files, (f: FileEntry) => !Placed(d, base.files, f.path)) == Added(base.files, table.files)
  {
    hide IsDelta;
    var changed := (f: FileEntry) => !KeptFrom(base.files, d.baseFrames, f);
    var unplaced := (f: FileEntry) => !Placed(d, base.files, f.path);
    assert d.files == Filter(table.files, changed) by {
      DeltaFiles(d, base, table);
    }
    forall i | 0 <= i < |table.files|
      ensures (changed(table.files[i]) && unplaced(table.files[i])) == Lookup(base.files, table.files[i].path).None?
    {
      RemovedAre(d, base, table, table.files[i].path);
      ChangedAre(d, base, table, table.files[i].path);
      LookupIs(table.files, table.files[i]);
    }
    FilterTwice(table.files, changed, unplaced, (f: FileEntry) => Lookup(base.files, f.path).None?);
  }

  lemma DeltaFiles(d: MetadataDelta, base: Metadata, table: Metadata)
    requires IsDelta(d, base, table)
    ensures d.files == Filter(table.files, (f: FileEntry) => !KeptFrom(base.files, d.baseFrames, f))
  {}

  lemma {:induction false} FilterTwice<T>(s: seq<T>, p: T -> bool, q: T -> bool, both: T -> bool)
    requires forall i :: 0 <= i < |s| ==> both(s[i]) == (p(s[i]) && q(s[i]))
    ensures Filter(Filter(s, p), q) == Filter(s, both)
  {
    if s != [] {
      var n := |s| - 1;
      FilterTwice(s[..n], p, q, both);
      var front := Filter(s[..n], p);
      if p(s[n]) {
        assert (front + [s[n]])[..|front|] == front;
      } else {
        assert Filter(s, p) == front;
      }
    }
  }

  /** The shared files are the table's own. */
  lemma {:induction false} SharedHas(base: seq<FileEntry>, files: seq<FileEntry>, x: FileEntry)
    requires DistinctFiles(files)
    ensures x in Shared(base, files) <==> x in files && Lookup(base, x.path).Some?
  {
    if base != [] {
      var n := |base| - 1;
      SharedHas(base[..n], files, x);
      LookupSound(files, base[n].path);
      LookupIs(files, x);
    }
  }

  /** The shared files are in the base's order. */
  lemma {:induction false} SharedOrder(base: seq<FileEntry>, files: seq<FileEntry>, n: nat)
    requires DistinctFiles(base) && n <= |base|
    ensures Increasing(Shared(base[..n], files), (f: FileEntry) => Position(base, f.path))
    ensures forall k :: 0 <= k < |Shared(base[..n], files)| ==> Position(base, Shared(base[..n], files)[k].path) < n
  {
    if n > 0 {
      SharedOrder(base, files, n - 1);
      assert base[..n][..n - 1] == base[..n - 1];
      LookupSound(files, base[n - 1].path);
      assert Position(base, base[n - 1].path) == n - 1;
    }
  }

  /** The order of what comes back: first by place in the base, then by place in
      the table. */
  function Rank(base: seq<FileEntry>, files: seq<FileEntry>, path: Bytes): nat {
    if Position(base, path) < |base| then Position(base, path) else |base| + Position(files, path)
  }

  lemma PositionIs(files: seq<FileEntry>, i: nat)
    requires DistinctFiles(files) && i < |files|
    ensures Position(files, files[i].path) == i
  {
    var n := Position(files, files[i].path);
    LookupSound(files, files[i].path);
    assert files[i].path in PathSet(files);
  }

  lemma ReorderedOrder(base: seq<FileEntry>, files: seq<FileEntry>)
    requires DistinctFiles(base) && DistinctFiles(files)
    ensures Increasing(Reordered(base, files), (f: FileEntry) => Rank(base, files, f.path))
  {
    var key := (f: FileEntry) => Rank(base, files, f.path);
    var absent := (f: FileEntry) => Lookup(base, f.path).None?;
    SharedOrder(base, files, |base|);
    assert base[..|base|] == base;
    var a, b := Shared(base, files), Added(base, files);
    forall i, j | 0 <= i < j < |files| && absent(files[i]) && absent(files[j]) ensures key(files[i]) < key(files[j]) {
      LookupSound(base, files[i].path);
      LookupSound(base, files[j].path);
      PositionIs(files, i);
      PositionIs(files, j);
    }
    FilterIncreasing(files, absent, key);
    forall i | 0 <= i < |b| ensures key(b[i]) >= |base| {
      FilterHas(files, absent, b[i]);
      LookupSound(base, b[i].path);
    }
    hide Rank, Position, Shared, Added;
    assert forall i :: 0 <= i < |a| ==> key(a[i]) < |base|;
  }

  /** What comes back has the table's files, each once. */
  lemma ReorderedHas(base: seq<FileEntry>, files: seq<FileEntry>, x: FileEntry)
    requires DistinctFiles(files)
    ensures x in Reordered(base, files) <==> x in files
  {
    SharedHas(base, files, x);
    FilterHas(files, (f: FileEntry) => Lookup(base, f.path).None?, x);
  }

  lemma ReorderedDistinct(base: seq<FileEntry>, files: seq<FileEntry>)
    requires DistinctFiles(base) && DistinctFiles(files)
    ensures DistinctFiles(Reordered(base, files))
  {
    ReorderedOrder(base, files);
  }
}
