/** Writing the worktree from Head packs (rust/src/extract.rs,
    `build_blob_path_map` and `extract_blobs_from_pack_bytes`). */
module HeadCheckouts {
  import opened Clonepack
  import opened Seqs
  import opened Words
  import opened PackHeaders
  import opened HeadPacks

  const BLOB: Kind := 3

  datatype Target = Target(path: Bytes, mode: nat)

  datatype FileWrite = FileWrite(path: Bytes, mode: nat, content: Bytes)

  /** An object of a pack. */
  datatype PackObject = PackObject(kind: Kind, content: Bytes)

  /** Inflate a zlib stream at the start of the bytes: the content and how many
      bytes it took. */
  type Inflate = Bytes -> Option<(Bytes, nat)>

  function TargetOf(f: FileEntry): Target { Target(f.path, f.mode) }

  function Targets(files: seq<FileEntry>, oid: Oid): seq<Target> {
    if files == [] then [] else
      var last := files[|files| - 1];
      Targets(files[..|files| - 1], oid) + if last.blob == oid && |oid| == 20 then [TargetOf(last)] else []
  }

  /** Each blob id leads to the paths of the files with it, in table order. */
  ghost predicate IsPathMap(m: map<Oid, seq<Target>>, files: seq<FileEntry>) {
    forall oid :: Targets(files, oid) == if oid in m then m[oid] else []
  }

  /** The map after one more file. */
  function WithTarget(m: map<Oid, seq<Target>>, f: FileEntry): map<Oid, seq<Target>> {
    if |f.blob| != 20 then m else m[f.blob := (if f.blob in m then m[f.blob] else []) + [TargetOf(f)]]
  }

  lemma PathMapStep(m: map<Oid, seq<Target>>, front: seq<FileEntry>, f: FileEntry)
    requires IsPathMap(m, front)
    ensures IsPathMap(WithTarget(m, f), front + [f])
  {
    var m' := WithTarget(m, f);
    forall oid ensures Targets(front + [f], oid) == if oid in m' then m'[oid] else [] {
      assert (front + [f])[..|front|] == front;
      assert Targets(front, oid) == if oid in m then m[oid] else [];
    }
  }

  method BlobPathMap(files: seq<FileEntry>) returns (m: map<Oid, seq<Target>>)
    ensures IsPathMap(m, files)
  {
    m := map[];
    assert IsPathMap(m, []);
    hide IsPathMap;
    for i := 0 to |files|
      invariant IsPathMap(m, files[..i])
    {
      PathMapStep(m, files[..i], files[i]);
      assert files[..i] + [files[i]] == files[..i + 1];
      var f := files[i];
      if |f.blob| == 20 {
        m := m[f.blob := (if f.blob in m then m[f.blob] else []) + [Target(f.path, f.mode)]];
      }
    }
    assert files[..|files|] == files;
  }

  function WritesTo(targets: seq<Target>, content: Bytes): seq<FileWrite> {
    seq(|targets|, i requires 0 <= i < |targets| => FileWrite(targets[i].path, targets[i].mode, content))
  }

  /** What one object writes. */
  function ObjectWrites(env: Env, o: PackObject, files: seq<FileEntry>): seq<FileWrite> {
    if o.kind == BLOB then WritesTo(Targets(files, env.blobId(o.content)), o.content) else []
  }

  function AllWrites(env: Env, objects: seq<PackObject>, files: seq<FileEntry>): seq<FileWrite> {
    if objects == [] then [] else
      AllWrites(env, objects[..|objects| - 1], files) + ObjectWrites(env, objects[|objects| - 1], files)
  }

  /** The entry's bytes: its header, and a stream that inflates to its content. */
  ghost predicate IsEntry(bytes: Bytes, o: PackObject, inflate: Inflate) {
    var h := Header(o.kind, |o.content|);
    && h <= bytes && o.kind < 6 && |o.content| <= U64_MAX
    && forall rest :: inflate(bytes[|h|..] + rest) == Some((o.content, |bytes| - |h|))
  }

  /** A pack of these objects, undeltified. */
  ghost predicate IsPack(pack: Bytes, objects: seq<PackObject>, entries: seq<Bytes>, inflate: Inflate) {
    && |entries| == |objects|
    && (forall i :: 0 <= i < |objects| ==> IsEntry(entries[i], objects[i], inflate) && entries[i] != [])
    && |pack| >= 12 + |Concat(entries)| && pack[..4] == [80, 65, 67, 75] && FromBe(pack[8..12]) == |objects|
    && pack[12..12 + |Concat(entries)|] == Concat(entries)
  }

  /** One object at the start of `buf`: the object and how many bytes it takes. */
  method ReadObject(buf: Bytes, inflate: Inflate) returns (r: Result<(PackObject, nat)>)
    ensures r.Ok? ==>
      exists n: nat :: GoodHeader(buf, n) && r.value.0.kind == buf[0] / 16 % 8 && Value(buf[..n]) == |r.value.0.content|
        && inflate(buf[n..]).Some? && inflate(buf[n..]).value.0 == r.value.0.content
           && r.value.1 == n + inflate(buf[n..]).value.1
    ensures forall o, bytes :: IsEntry(bytes, o, inflate) && bytes <= buf ==> r == Ok((o, |bytes|))
  {
    hide Value, Header;
    var header := ParseHeader(buf);
    forall o, bytes | IsEntry(bytes, o, inflate) && bytes <= buf
      ensures GoodHeader(buf, |Header(o.kind, |o.content|)|) && buf[0] / 16 % 8 == o.kind
      ensures Value(buf[..|Header(o.kind, |o.content|)|]) == |o.content|
      ensures inflate(buf[|Header(o.kind, |o.content|)|..]) ==
        Some((o.content, |bytes| - |Header(o.kind, |o.content|)|))
    {
      EntryAt(buf, bytes, o, inflate);
    }
    if header.Err? {
      return Err(header.error);
    }
    var kind, size, n := header.value.0, header.value.1, header.value.2;
    if kind == 6 || kind == 7 {
      return Err(BadGeometry);
    }
    var inflated := inflate(buf[n..]);
    if inflated.None? || |inflated.value.0| != size {
      return Err(BadGeometry);
    }
    return Ok((PackObject(kind, inflated.value.0), n + inflated.value.1));
  }

  lemma EntryAt(buf: Bytes, bytes: Bytes, o: PackObject, inflate: Inflate)
    requires IsEntry(bytes, o, inflate) && bytes <= buf
    ensures var n := |Header(o.kind, |o.content|)|;
      && GoodHeader(buf, n) && buf[0] / 16 % 8 == o.kind && Value(buf[..n]) == |o.content|
      && inflate(buf[n..]) == Some((o.content, |bytes| - n))
  {
    hide Header, Value;
    var h, rest := Header(o.kind, |o.content|), buf[|bytes|..];
    HeaderReads(o.kind, |o.content|, buf[|h|..]);
    assert buf == h + buf[|h|..];
    assert buf[|h|..] == bytes[|h|..] + rest;
  }

  /** Go through the pack's objects and write each blob to its paths. */
  method ExtractBlobs(env: Env, pack: Bytes, m: map<Oid, seq<Target>>, inflate: Inflate,
                      ghost files: seq<FileEntry>, ghost objects: seq<PackObject>, ghost entries: seq<Bytes>)
    returns (r: Result<seq<FileWrite>>)
    requires IsPathMap(m, files)
    ensures IsPack(pack, objects, entries, inflate) ==> r == Ok(AllWrites(env, objects, files))
  {
    hide IsEntry, Concat, Targets, IsPathMap, AllWrites, ObjectWrites, WritesTo;
    if |pack| < 12 || pack[..4] != [80, 65, 67, 75] {
      return Err(BadGeometry);
    }
    var count := FromBe(pack[8..12]);
    var off: nat := 12;
    var writes: seq<FileWrite> := [];
    ghost var good := IsPack(pack, objects, entries, inflate);
    if good { EntriesStart(env, entries, objects, files); }
    for i := 0 to count
      invariant off <= |pack| || !good
      invariant good ==> off == 12 + |Concat(entries[..i])| && writes == AllWrites(env, objects[..i], files)
    {
      if good { NextEntry(pack, objects, entries, inflate, i); }
      if off >= |pack| {
        return Err(PastFrame);
      }
      var read := ReadObject(pack[off..], inflate);
      if read.Err? {
        return Err(read.error);
      }
      var o := read.value.0;
      ObjectWritten(env, o, m, files);
      if o.kind == BLOB {
        var oid := env.blobId(o.content);
        if oid in m {
          writes := writes + WritesTo(m[oid], o.content);
        }
      }
      if good { AllWritesNext(env, objects, i, files); }
      off := off + read.value.1;
    }
    if good { assert objects[..|objects|] == objects; }
    return Ok(writes);
  }

  lemma EntriesStart(env: Env, entries: seq<Bytes>, objects: seq<PackObject>, files: seq<FileEntry>)
    ensures Concat(entries[..0]) == [] && AllWrites(env, objects[..0], files) == []
  {}

  lemma ObjectWritten(env: Env, o: PackObject, m: map<Oid, seq<Target>>, files: seq<FileEntry>)
    requires IsPathMap(m, files)
    ensures ObjectWrites(env, o, files) ==
      if o.kind == BLOB && env.blobId(o.content) in m then WritesTo(m[env.blobId(o.content)], o.content) else []
  {}

  lemma AllWritesNext(env: Env, objects: seq<PackObject>, i: nat, files: seq<FileEntry>)
    requires i < |objects|
    ensures AllWrites(env, objects[..i + 1], files) ==
      AllWrites(env, objects[..i], files) + ObjectWrites(env, objects[i], files)
  {
    assert objects[..i + 1][..i] == objects[..i];
  }

  lemma NextEntry(pack: Bytes, objects: seq<PackObject>, entries: seq<Bytes>, inflate: Inflate, i: nat)
    requires IsPack(pack, objects, entries, inflate) && i < |objects|
    ensures var off := 12 + |Concat(entries[..i])|;
      && off < |pack| && IsEntry(entries[i], objects[i], inflate) && entries[i] <= pack[off..]
      && off + |entries[i]| == 12 + |Concat(entries[..i + 1])| <= |pack|
  {
    hide IsEntry;
    var off, all := 12 + |Concat(entries[..i])|, |Concat(entries)|;
    ConcatPart(entries, i);
    SliceSlice(pack, 12, 12 + all, off - 12, off - 12 + |entries[i]|);
    assert pack[off..][..|entries[i]|] == pack[off..off + |entries[i]|];
  }

  /** The writes the files that satisfy `p` call for. */
  function WritesWhere(env: Env, files: seq<FileEntry>, p: FileEntry -> bool): seq<FileWrite> {
    if files == [] then [] else
      var last := files[|files| - 1];
      WritesWhere(env, files[..|files| - 1], p) + if p(last) then [FileWrite(last.path, last.mode, env.blob(last.blob))]
        else []
  }

  /** Every file of the table, with its blob's bytes. */
  function Expected(env: Env, files: seq<FileEntry>): seq<FileWrite> {
    seq(|files|, i requires 0 <= i < |files| => FileWrite(files[i].path, files[i].mode, env.blob(files[i].blob)))
  }

  lemma {:induction false} WhereAll(env: Env, files: seq<FileEntry>, p: FileEntry -> bool)
    requires forall i :: 0 <= i < |files| ==> p(files[i])
    ensures WritesWhere(env, files, p) == Expected(env, files)
  {
    if files != [] {
      WhereAll(env, files[..|files| - 1], p);
    }
  }

  lemma {:induction false} WhereNone(env: Env, files: seq<FileEntry>, p: FileEntry -> bool)
    requires forall i :: 0 <= i < |files| ==> !p(files[i])
    ensures WritesWhere(env, files, p) == []
  {
    if files != [] {
      WhereNone(env, files[..|files| - 1], p);
    }
  }

  lemma {:induction false} WhereSame(env: Env, files: seq<FileEntry>, p: FileEntry -> bool, q: FileEntry -> bool)
    requires forall i :: 0 <= i < |files| ==> p(files[i]) == q(files[i])
    ensures WritesWhere(env, files, p) == WritesWhere(env, files, q)
  {
    if files != [] {
      WhereSame(env, files[..|files| - 1], p, q);
    }
  }

  /** Files that satisfy one of two exclusive tests. */
  lemma {:induction false} WhereEither(env: Env, files: seq<FileEntry>, p: FileEntry -> bool, q: FileEntry -> bool,
                                       either: FileEntry -> bool)
    requires forall i :: 0 <= i < |files| ==>
      either(files[i]) == (p(files[i]) || q(files[i])) && !(p(files[i]) && q(files[i]))
    ensures multiset(WritesWhere(env, files, either)) ==
      multiset(WritesWhere(env, files, p)) + multiset(WritesWhere(env, files, q))
  {
    if files != [] {
      WhereEither(env, files[..|files| - 1], p, q, either);
    }
  }

  /** A blob's targets are the files with its id. */
  lemma {:induction false} TargetWrites(env: Env, files: seq<FileEntry>, oid: Oid)
    requires forall i :: 0 <= i < |files| ==> |files[i].blob| == 20
    ensures WritesTo(Targets(files, oid), env.blob(oid)) == WritesWhere(env, files, (f: FileEntry) => f.blob == oid)
  {
    if files != [] {
      TargetWrites(env, files[..|files| - 1], oid);
    }
  }

  /** One of the objects is the blob. */
  predicate HasBlob(env: Env, objects: seq<PackObject>, oid: Oid) {
    exists k :: 0 <= k < |objects| && objects[k].kind == BLOB && env.blobId(objects[k].content) == oid
  }

  /** No blob twice, and each the repository's. */
  ghost predicate BlobsOnce(env: Env, objects: seq<PackObject>) {
    && (forall i, j :: 0 <= i < j < |objects| && objects[i].kind == BLOB && objects[j].kind == BLOB ==>
         env.blobId(objects[i].content) != env.blobId(objects[j].content))
    && (forall i :: 0 <= i < |objects| && objects[i].kind == BLOB ==>
       env.blob(env.blobId(objects[i].content)) == objects[i].content)
  }

  /** The objects write the files whose blobs they are, each once. */
  lemma {:induction false} WritesAre(env: Env, objects: seq<PackObject>, files: seq<FileEntry>)
    requires BlobsOnce(env, objects) && forall i :: 0 <= i < |files| ==> |files[i].blob| == 20
    ensures multiset(AllWrites(env, objects, files)) ==
      multiset(WritesWhere(env, files, (f: FileEntry) => HasBlob(env, objects, f.blob)))
  {
    var has := (f: FileEntry) => HasBlob(env, objects, f.blob);
    if objects == [] {
      WhereNone(env, files, has);
    } else {
      var n := |objects| - 1;
      var front, o := objects[..n], objects[n];
      var before := (f: FileEntry) => HasBlob(env, front, f.blob);
      WritesAre(env, front, files);
      FrontBlobs(env, objects);
      hide HasBlob;
      if o.kind == BLOB {
        var oid := env.blobId(o.content);
        TargetWrites(env, files, oid);
        WhereEither(env, files, before, (f: FileEntry) => f.blob == oid, has);
      } else {
        WhereSame(env, files, before, has);
      }
    }
  }

  lemma FrontBlobs(env: Env, objects: seq<PackObject>)
    requires BlobsOnce(env, objects) && objects != []
    ensures var n := |objects| - 1;
      forall oid :: HasBlob(env, objects, oid) <==>
        HasBlob(env, objects[..n], oid) || (objects[n].kind == BLOB && env.blobId(objects[n].content) == oid)
    ensures var n := |objects| - 1;
      objects[n].kind == BLOB ==> !HasBlob(env, objects[..n], env.blobId(objects[n].content))
  {
    var n := |objects| - 1;
    forall oid
      ensures HasBlob(env, objects, oid) <==>
      HasBlob(env, objects[..n], oid) || (objects[n].kind == BLOB && env.blobId(objects[n].content) == oid)
    {
      if HasBlob(env, objects[..n], oid) {
        var k :| 0 <= k < n && objects[..n][k].kind == BLOB && env.blobId(objects[..n][k].content) == oid;
        assert objects[k] == objects[..n][k];
      }
      if HasBlob(env, objects, oid) {
        var k :| 0 <= k < |objects| && objects[k].kind == BLOB && env.blobId(objects[k].content) == oid;
        assert k == n || objects[..n][k].kind == BLOB;
      }
    }
  }

  /** Packs may be written one after the other in any order. */
  lemma {:induction false} WritesAppend(env: Env, a: seq<PackObject>, b: seq<PackObject>, files: seq<FileEntry>)
    ensures AllWrites(env, a + b, files) == AllWrites(env, a, files) + AllWrites(env, b, files)
  {
    hide ObjectWrites;
    if b == [] {
      assert a + b == a;
    } else {
      WritesAppend(env, a, b[..|b| - 1], files);
      assert (a + b)[..|a + b| - 1] == a + b[..|b| - 1];
    }
  }

  /** The pack holds these objects, by id. */
  ghost predicate Holds(p: HeadPack, objects: seq<PackObject>, id: PackObject -> Oid) {
    AreOnce(objects, id, IdSet(p))
  }

  /** The objects have these ids, each once. */
  ghost predicate AreOnce(objects: seq<PackObject>, id: PackObject -> Oid, ids: set<Oid>) {
    && (forall i, j :: 0 <= i < j < |objects| ==> id(objects[i]) != id(objects[j]))
    && (forall x :: x in ids <==> exists i :: 0 <= i < |objects| && id(objects[i]) == x)
  }

  /** An object's id: a blob's is its blob id, and a file's blob id names the
      blob's bytes. */
  ghost predicate IdsRight(env: Env, objects: seq<PackObject>, files: seq<FileEntry>, id: PackObject -> Oid) {
    && (forall k :: 0 <= k < |objects| && objects[k].kind == BLOB ==>
         id(objects[k]) == env.blobId(objects[k].content)
           && env.blob(env.blobId(objects[k].content)) == objects[k].content)
    && (forall k, i :: 0 <= k < |objects| && 0 <= i < |files| && id(objects[k]) == files[i].blob ==>
       objects[k].kind == BLOB)
  }

  /** Disjoint packs hold no object twice. */
  lemma {:induction false} PacksOnce(packs: seq<HeadPack>, contents: seq<seq<PackObject>>, id: PackObject -> Oid)
    requires Disjoint(packs) && |contents| == |packs| && forall k :: 0 <= k < |packs| ==>
      Holds(packs[k], contents[k], id)
    ensures AreOnce(Concat(contents), id, AllIds(packs))
  {
    if packs != [] {
      var rest := Concat(contents[1..]);
      PacksOnce(packs[1..], contents[1..], id);
      assert packs == [packs[0]] + packs[1..];
      AllIdsAppend([packs[0]], packs[1..]);
      OnlyPack(packs[0]);
      Apart(packs);
      assert Holds(packs[0], contents[0], id);
      hide AreOnce, Disjoint, AllIds, IdSet;
      JoinedOnce(contents[0], rest, IdSet(packs[0]), AllIds(packs[1..]), id);
    }
  }

  lemma OnlyPack(p: HeadPack)
    ensures AllIds([p]) == IdSet(p)
  {
    InAll([p], 0);
  }

  lemma Apart(packs: seq<HeadPack>)
    requires Disjoint(packs) && packs != []
    ensures IdSet(packs[0]) !! AllIds(packs[1..])
  {
    forall x | x in AllIds(packs[1..]) ensures x !in IdSet(packs[0]) {
      var k, i :| 0 <= k < |packs[1..]| && 0 <= i < |packs[1..][k].ids| && packs[1..][k].ids[i] == x;
      assert IdSet(packs[0]) !! IdSet(packs[k + 1]);
    }
  }

  lemma JoinedOnce(first: seq<PackObject>, rest: seq<PackObject>, ids: set<Oid>, others: set<Oid>,
                   id: PackObject -> Oid)
    requires AreOnce(first, id, ids) && AreOnce(rest, id, others) && ids !! others
    ensures AreOnce(first + rest, id, ids + others)
  {
    var all := first + rest;
    forall i, j | 0 <= i < j < |all| ensures id(all[i]) != id(all[j]) {
      if i < |first| <= j {
        assert id(first[i]) in ids && id(rest[j - |first|]) in others;
      }
    }
    forall x ensures x in ids + others <==> exists i :: 0 <= i < |all| && id(all[i]) == x {
      if x in ids {
        var i :| 0 <= i < |first| && id(first[i]) == x;
        assert id(all[i]) == x;
      }
      if x in others {
        var i :| 0 <= i < |rest| && id(rest[i]) == x;
        assert id(all[|first| + i]) == x;
      }
      if exists i :: 0 <= i < |all| && id(all[i]) == x {
        var i :| 0 <= i < |all| && id(all[i]) == x;
        assert if i < |first| then id(first[i]) == x else id(rest[i - |first|]) == x;
      }
    }
  }

  /** From Head packs that are disjoint and hold the closure, every file of the
      table is written exactly once, with its blob's bytes, and nothing else is. */
  lemma HeadWritesOnce(env: Env, packs: seq<HeadPack>, contents: seq<seq<PackObject>>, closure: seq<Oid>,
                       files: seq<FileEntry>, id: PackObject -> Oid)
    requires HeadOk(packs, closure) && |contents| == |packs| && forall k :: 0 <= k < |packs| ==>
      Holds(packs[k], contents[k], id)
    requires IdsRight(env, Concat(contents), files, id)
    requires forall i :: 0 <= i < |files| ==> |files[i].blob| == 20 && files[i].blob in SetOf(closure)
    ensures multiset(AllWrites(env, Concat(contents), files)) == multiset(Expected(env, files))
  {
    var all := Concat(contents);
    PacksOnce(packs, contents, id);
    hide Holds, PacksOk, AllIds, SetOf, Concat, AllWrites;
    assert BlobsOnce(env, all);
    WritesAre(env, all, files);
    forall i | 0 <= i < |files| ensures HasBlob(env, all, files[i].blob) {
      assert files[i].blob in AllIds(packs);
      var k :| 0 <= k < |all| && id(all[k]) == files[i].blob;
      assert all[k].kind == BLOB;
    }
    WhereAll(env, files, (f: FileEntry) => HasBlob(env, all, f.blob));
  }

  /** The packs hold these objects, in these entries. */
  ghost predicate ArePacks(packs: seq<Bytes>, contents: seq<seq<PackObject>>, entries: seq<seq<Bytes>>,
                           inflate: Inflate) {
    && |packs| == |contents| == |entries|
    && forall k :: 0 <= k < |packs| ==> IsPack(packs[k], contents[k], entries[k], inflate)
  }

  /** Go through all packs: together they write what all their objects write. */
  method ExtractAll(env: Env, packs: seq<Bytes>, m: map<Oid, seq<Target>>, inflate: Inflate,
                    ghost files: seq<FileEntry>, ghost contents: seq<seq<PackObject>>, ghost entries: seq<seq<Bytes>>)
    returns (r: Result<seq<FileWrite>>)
    requires IsPathMap(m, files) && |contents| == |entries| == |packs|
    ensures ArePacks(packs, contents, entries, inflate) ==> r == Ok(AllWrites(env, Concat(contents), files))
  {
    hide IsPack, Concat, AllWrites, IsPathMap;
    var writes: seq<FileWrite> := [];
    NoWrites(env, files);
    for k := 0 to |packs|
      invariant ArePacks(packs, contents, entries, inflate) ==> writes == AllWrites(env, Concat(contents[..k]), files)
    {
      var more := ExtractBlobs(env, packs[k], m, inflate, files, contents[k], entries[k]);
      if more.Err? {
        return Err(more.error);
      }
      ConcatSnoc(contents[..k], contents[k]);
      assert contents[..k] + [contents[k]] == contents[..k + 1];
      WritesAppend(env, Concat(contents[..k]), contents[k], files);
      writes := writes + more.value;
    }
    assert contents[..|packs|] == contents;
    return Ok(writes);
  }

  lemma NoWrites(env: Env, files: seq<FileEntry>)
    ensures forall contents: seq<seq<PackObject>> :: AllWrites(env, Concat(contents[..0]), files) == []
  {}

  /** Check the worktree out from its Head packs, taken in any order: every file of
      the table is written exactly once with its blob's bytes, and nothing else is. */
  method CheckoutHead(env: Env, packs: seq<Bytes>, files: seq<FileEntry>, inflate: Inflate, ghost heads: seq<HeadPack>,
                      ghost closure: seq<Oid>,
                      ghost contents: seq<seq<PackObject>>, ghost entries: seq<seq<Bytes>>, ghost id: PackObject -> Oid)
    returns (r: Result<seq<FileWrite>>)
    requires ArePacks(packs, contents, entries, inflate)
    requires HeadOk(heads, closure) && |contents| == |heads| && forall k :: 0 <= k < |heads| ==>
      Holds(heads[k], contents[k], id)
    requires IdsRight(env, Concat(contents), files, id)
    requires forall i :: 0 <= i < |files| ==> |files[i].blob| == 20 && files[i].blob in SetOf(closure)
    ensures r.Ok? && multiset(r.value) == multiset(Expected(env, files))
  {
    HeadWritesOnce(env, heads, contents, closure, files, id);
    hide *;
    var m := BlobPathMap(files);
    SameCount(packs, contents, entries, inflate);
    r := ExtractAll(env, packs, m, inflate, files, contents, entries);
  }

  lemma SameCount(packs: seq<Bytes>, contents: seq<seq<PackObject>>, entries: seq<seq<Bytes>>, inflate: Inflate)
    requires ArePacks(packs, contents, entries, inflate)
    ensures |packs| == |contents| == |entries|
  {}
}
