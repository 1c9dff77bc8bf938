/** A build as a tail on its base: kept fragments are renumbered, and only new
    blobs are streamed (rust/src/archive.rs, `build_tail_into_cas`). */
module Tails {
  import opened Clonepack
  import opened Seqs
  import opened Fragments
  import opened Layouts
  import opened Grouping
  import opened Archives
  import opened Bundlers
  import opened Streams
  import opened Gaps
  import opened Builds

  /** The fragments read back as the blob. */
  ghost predicate Spelled(env: Env, frags: seq<Fragment>, oid: Oid, raws: seq<Bytes>) {
    && frags != []
    && (forall i :: 0 <= i < |frags| ==> InFrame(frags[i], raws))
    && Read(frags, raws) == env.blob(oid)
  }

  ghost predicate AllSpelled(env: Env, m: map<Oid, seq<Fragment>>, raws: seq<Bytes>) {
    forall oid :: oid in m ==> Spelled(env, m[oid], oid, raws)
  }

  /** The blobs of the files. */
  ghost function Held(files: seq<FileEntry>): set<Oid> {
    set i | 0 <= i < |files| :: files[i].blob
  }

  /** The fragments of the last file with this blob. */
  ghost function LastWith(files: seq<FileEntry>, oid: Oid): seq<Fragment> {
    if files == [] then [] else
      var last := files[|files| - 1];
      if last.blob == oid then last.fragments else LastWith(files[..|files| - 1], oid)
  }

  /** The base's fragments by blob. */
  method ByBlob(env: Env, files: seq<FileEntry>, ghost tree: seq<TreeFile>, ghost raws: seq<Bytes>)
    returns (m: map<Oid, seq<Fragment>>)
    requires FilesHold(env, files, tree, raws)
    ensures AllSpelled(env, m, raws)
    ensures m.Keys == Held(files)
    ensures forall oid :: oid in m ==> m[oid] == LastWith(files, oid)
  {
    hide Read, InFrame;
    m := map[];
    for i := 0 to |files|
      invariant AllSpelled(env, m, raws)
      invariant m.Keys == set j | 0 <= j < i :: files[j].blob
      invariant forall oid :: oid in m ==> m[oid] == LastWith(files[..i], oid)
    {
      assert files[..i + 1][..i] == files[..i];
      assert FileHolds(env, files[i], tree[i], raws);
      if files[i].fragments != [] {
        m := m[files[i].blob := files[i].fragments];
      }
    }
    assert files[..|files|] == files;
  }

  ghost function Oids(ts: seq<TreeFile>): set<Oid> {
    set i | 0 <= i < |ts| :: ts[i].oid
  }

  lemma OidsNext(ts: seq<TreeFile>, t: TreeFile)
    ensures Oids(ts + [t]) == Oids(ts) + {t.oid}
  {
    var us := ts + [t];
    assert us[|ts|] == t;
    forall o | o in Oids(ts) ensures o in Oids(us) {
      var i :| 0 <= i < |ts| && ts[i].oid == o;
      assert us[i].oid == o;
    }
  }

  /** The new blobs of the first `n` files, in tree order, each once. */
  ghost function FirstNew(blobs: seq<TreeFile>, held: set<Oid>, n: nat): seq<TreeFile>
    requires n <= |blobs|
  {
    if n == 0 then [] else
      var before, blob := FirstNew(blobs, held, n - 1), blobs[n - 1];
      if blob.oid in held || blob.oid in Oids(before) then before else before + [blob]
  }

  /** The tail holds every new blob, and each once. */
  lemma {:induction false} FirstNewEach(blobs: seq<TreeFile>, held: set<Oid>, n: nat)
    requires n <= |blobs|
    ensures var tail := FirstNew(blobs, held, n);
      && (forall i, j :: 0 <= i < j < |tail| ==> tail[i].oid != tail[j].oid)
      && Oids(tail) == Oids(blobs[..n]) - held
  {
    if n > 0 {
      FirstNewEach(blobs, held, n - 1);
      OidsNext(blobs[..n - 1], blobs[n - 1]);
      assert blobs[..n - 1] + [blobs[n - 1]] == blobs[..n];
      OidsNext(FirstNew(blobs, held, n - 1), blobs[n - 1]);
    }
  }

  /** Which files find their blob in the base, and the others' blobs, no two alike. */
  method SplitBlobs(blobs: seq<TreeFile>, byBlob: map<Oid, seq<Fragment>>)
    returns (kept: seq<Option<seq<Fragment>>>, tail: seq<TreeFile>)
    ensures |kept| == |blobs|
    ensures forall i :: 0 <= i < |blobs| ==>
      kept[i] == if blobs[i].oid in byBlob then Some(byBlob[blobs[i].oid]) else None
    ensures tail == FirstNew(blobs, byBlob.Keys, |blobs|)
  {
    kept, tail := [], [];
    var inTail: set<Oid> := {};
    for i := 0 to |blobs|
      invariant |kept| == i
      invariant forall j :: 0 <= j < i ==>
        kept[j] == if blobs[j].oid in byBlob then Some(byBlob[blobs[j].oid]) else None
      invariant inTail == Oids(tail) && tail == FirstNew(blobs, byBlob.Keys, i)
    {
      var blob := blobs[i];
      OidsNext(tail, blob);
      if blob.oid in byBlob {
        kept := kept + [Some(byBlob[blob.oid])];
      } else {
        if blob.oid !in inTail {
          inTail := inTail + {blob.oid};
          tail := tail + [blob];
        }
        kept := kept + [None];
      }
    }
  }

  /** Some kept fragment lies in a frame of bundle `g`. */
  ghost predicate Used(frags: seq<Fragment>, infos: seq<FrameInfo>, g: nat) {
    exists n :: 0 <= n < |frags| && frags[n].frameIndex < |infos| && infos[frags[n].frameIndex].chunkIndex == g
  }

  /** The fragments lie in frames of the bundles. */
  ghost predicate InBundles(frags: seq<Fragment>, infos: seq<FrameInfo>, bundles: nat) {
    forall n :: 0 <= n < |frags| ==> frags[n].frameIndex < |infos| && infos[frags[n].frameIndex].chunkIndex < bundles
  }

  /** One mark per bundle: some fragment reads from it. */
  method MarkLive(frags: seq<Fragment>, infos: seq<FrameInfo>, bundles: nat) returns (r: Result<seq<bool>>)
    ensures r.Ok? <==> InBundles(frags, infos, bundles)
    ensures r.Ok? ==> |r.value| == bundles && forall g :: 0 <= g < bundles ==> (r.value[g] <==> Used(frags, infos, g))
    ensures r.Err? ==> r.error == BadBase
  {
    var live := seq(bundles, _ => false);
    for i := 0 to |frags|
      invariant |live| == bundles
      invariant forall n :: 0 <= n < i ==>
        frags[n].frameIndex < |infos| && infos[frags[n].frameIndex].chunkIndex < bundles
      invariant forall g :: 0 <= g < bundles ==> (live[g] <==> Used(frags[..i], infos, g))
    {
      if frags[i].frameIndex >= |infos| {
        return Err(BadBase);
      }
      var at := infos[frags[i].frameIndex].chunkIndex;
      if at >= bundles {
        return Err(BadBase);
      }
      forall g | 0 <= g < bundles ensures Used(frags[..i + 1], infos, g) <==> Used(frags[..i], infos, g) || g == at {
        UsedNext(frags, infos, g, i);
      }
      live := live[at := true];
    }
    assert frags[..|frags|] == frags;
    return Ok(live);
  }

  lemma UsedNext(frags: seq<Fragment>, infos: seq<FrameInfo>, g: nat, i: nat)
    requires i < |frags| && frags[i].frameIndex < |infos|
    ensures Used(frags[..i + 1], infos, g) <==> Used(frags[..i], infos, g) || g == infos[frags[i].frameIndex].chunkIndex
  {
    var a, b := frags[..i], frags[..i + 1];
    assert b[i] == frags[i];
    if Used(a, infos, g) {
      var n :| 0 <= n < |a| && a[n].frameIndex < |infos| && infos[a[n].frameIndex].chunkIndex == g;
      assert b[n] == a[n];
    }
    if Used(b, infos, g) && !Used(a, infos, g) {
      var n :| 0 <= n < |b| && b[n].frameIndex < |infos| && infos[b[n].frameIndex].chunkIndex == g;
      assert b[n] == frags[n];
    }
  }

  /** The live ones of the first `n` elements. */
  ghost function Pick<T>(s: seq<T>, live: seq<bool>, n: nat): (r: seq<T>)
    requires n <= |s| == |live|
    ensures |r| == Rank(live, n)
  {
    if n == 0 then [] else Pick(s, live, n - 1) + if live[n - 1] then [s[n - 1]] else []
  }

  /** How many of the first `n` are live. */
  ghost function Rank(live: seq<bool>, n: nat): nat
    requires n <= |live|
  {
    if n == 0 then 0 else Rank(live, n - 1) + if live[n - 1] then 1 else 0
  }

  /** The kept bundles and, for each live one, its new index. */
  method KeepBundles(bundles: seq<Digest>, live: seq<bool>) returns (r: Result<(seq<Digest>, seq<Option<nat>>)>)
    requires |live| == |bundles|
    ensures r.Err? ==> r.error == Limit
    ensures r.Ok? ==> r.value.0 == Pick(bundles, live, |live|) && |r.value.1| == |live|
    ensures r.Ok? ==> forall g :: 0 <= g < |live| ==> r.value.1[g] == if live[g] then Some(Rank(live, g)) else None
  {
    var kept: seq<Digest>, index: seq<Option<nat>> := [], [];
    for k := 0 to |bundles|
      invariant kept == Pick(bundles, live, k) && |index| == k
      invariant forall g :: 0 <= g < k ==> index[g] == if live[g] then Some(Rank(live, g)) else None
    {
      if live[k] {
        if |kept| > U32_MAX {
          return Err(Limit);
        }
        index := index + [Some(|kept|)];
        kept := kept + [bundles[k]];
      } else {
        index := index + [None];
      }
    }
    return Ok((kept, index));
  }

  /** The loop is at frame `j` of bundle `g`. */
  ghost predicate AtFrame(gs: seq<Group>, k: nat, g: nat, j: nat) {
    && g <= |gs| && k == First(gs, g) + j
    && if g == |gs| then j == 0 else j < |gs[g]|
  }

  /** The tables of the live bundles, up to frame `j` of bundle `g`. */
  ghost predicate KeptTables(gs: seq<Group>, live: seq<bool>, g: nat, j: nat, infos: seq<FrameInfo>,
                             frames: seq<ArchiveFrame>) {
    && |live| == |gs| && g <= |gs| && (if g == |gs| then j == 0 else j <= |gs[g]|)
    && var part := if g < |gs| && live[g] then gs[g][..j] else [];
    && frames == Concat(Pick(gs, live, g)) + part
    && infos == AllInfos(Pick(gs, live, g)) + GroupInfos(part, Rank(live, g))
  }

  /** Each frame of a live bundle is at its new index. */
  ghost predicate NewIndices(base: Archive, live: seq<bool>, k: nat, frames: seq<ArchiveFrame>, index: seq<nat>) {
    && |index| == k <= |base.frames| == |base.metadata.frames|
    && forall i :: 0 <= i < k ==>
         var g := base.metadata.frames[i].chunkIndex;
         g < |live| && (live[g] ==> index[i] < |frames| && frames[index[i]] == base.frames[i])
  }

  lemma TablesNext(gs: seq<Group>, live: seq<bool>, g: nat, j: nat, infos: seq<FrameInfo>, frames: seq<ArchiveFrame>)
    requires KeptTables(gs, live, g, j, infos, frames) && g < |gs| && j < |gs[g]|
    ensures if live[g]
      then KeptTables(gs, live, g, j + 1, infos + [GroupInfos(gs[g], Rank(live, g))[j]], frames + [gs[g][j]])
      else KeptTables(gs, live, g, j + 1, infos, frames)
  {
    hide Concat, AllInfos, Pick, Rank;
    if live[g] {
      var a, b := gs[g][..j], gs[g][..j + 1];
      assert b == a + [gs[g][j]];
      assert forall i :: 0 <= i < j ==> b[..i] == a[..i];
      assert b[..j] == gs[g][..j];
      assert GroupInfos(b, Rank(live, g)) == GroupInfos(a, Rank(live, g)) + [GroupInfos(gs[g], Rank(live, g))[j]];
    }
  }

  lemma AllInfosSnoc(gs: seq<Group>, g: Group)
    ensures AllInfos(gs + [g]) == AllInfos(gs) + GroupInfos(g, |gs|)
    ensures forall r: nat :: GroupInfos([], r) == []
  {
    assert (gs + [g])[..|gs|] == gs;
  }

  lemma PickNext<T>(s: seq<T>, live: seq<bool>, n: nat)
    requires n < |s| == |live|
    ensures Pick(s, live, n + 1) == if live[n] then Pick(s, live, n) + [s[n]] else Pick(s, live, n)
    ensures |Pick(s, live, n)| == Rank(live, n)
  {}

  /** At the end of a bundle the next one begins. */
  lemma TablesClose(gs: seq<Group>, live: seq<bool>, g: nat, infos: seq<FrameInfo>, frames: seq<ArchiveFrame>)
    requires g < |gs| && KeptTables(gs, live, g, |gs[g]|, infos, frames)
    ensures KeptTables(gs, live, g + 1, 0, infos, frames)
  {
    hide Concat, AllInfos, GroupInfos, Pick, Rank;
    PickNext(gs, live, g);
    AllInfosSnoc(Pick(gs, live, g), gs[g]);
    ConcatSnoc(Pick(gs, live, g), gs[g]);
    assert gs[g][..|gs[g]|] == gs[g];
    assert g + 1 < |gs| ==> gs[g + 1][..0] == [];
  }

  /** Renumber the frames of the live bundles. */
  method RenumberFrames(env: Env, base: Archive, bundleIndex: seq<Option<nat>>, ghost gs: seq<Group>,
                        ghost live: seq<bool>)
    returns (infos: seq<FrameInfo>, frames: seq<ArchiveFrame>, index: seq<nat>)
    requires GroupedBy(env, base, gs) && |live| == |gs| == |bundleIndex|
    requires forall g :: 0 <= g < |live| ==> bundleIndex[g] == if live[g] then Some(Rank(live, g)) else None
    ensures frames == Concat(Pick(gs, live, |gs|)) && infos == AllInfos(Pick(gs, live, |gs|))
    ensures NewIndices(base, live, |base.frames|, frames, index)
  {
    hide *;
    infos, frames, index := [], [], [];
    ghost var g: nat, j: nat := 0, 0;
    RenumberStart(env, base, gs, live);
    for k := 0 to |base.metadata.frames|
      invariant AtFrame(gs, k, g, j) && KeptTables(gs, live, g, j, infos, frames)
      invariant NewIndices(base, live, k, frames, index)
    {
      FrameAt(env, base, gs, k, g, j);
      TablesNext(gs, live, g, j, infos, frames);
      IndicesNext(base, live, k, frames, index);
      var info := base.metadata.frames[k];
      var chunkIndex := bundleIndex[info.chunkIndex];
      if chunkIndex.Some? {
        index := index + [|frames|];
        infos := infos + [info.(chunkIndex := chunkIndex.value)];
        frames := frames + [base.frames[k]];
      } else {
        index := index + [U32_MAX];
      }
      if j + 1 == |gs[g]| {
        TablesClose(gs, live, g, infos, frames);
        g, j := g + 1, 0;
      } else {
        j := j + 1;
      }
    }
    RenumberEnd(env, base, gs, live, g, j, infos, frames);
  }

  lemma RenumberStart(env: Env, base: Archive, gs: seq<Group>, live: seq<bool>)
    requires GroupedBy(env, base, gs) && |live| == |gs|
    ensures AtFrame(gs, 0, 0, 0) && KeptTables(gs, live, 0, 0, [], []) && NewIndices(base, live, 0, [], [])
    ensures |base.metadata.frames| == |base.frames|
  {
    AllInfosLen(gs);
  }

  lemma RenumberEnd(env: Env, base: Archive, gs: seq<Group>, live: seq<bool>, g: nat, j: nat, infos: seq<FrameInfo>,
                    frames: seq<ArchiveFrame>)
    requires GroupedBy(env, base, gs) && AtFrame(gs, |base.frames|, g, j) && KeptTables(gs, live, g, j, infos, frames)
    ensures frames == Concat(Pick(gs, live, |gs|)) && infos == AllInfos(Pick(gs, live, |gs|))
  {
    if g < |gs| {
      FirstNext(gs, g);
    }
  }

  /** The base's frame at the cursor, and where the cursor goes next. */
  lemma FrameAt(env: Env, base: Archive, gs: seq<Group>, k: nat, g: nat, j: nat)
    requires GroupedBy(env, base, gs) && AtFrame(gs, k, g, j) && k < |base.frames|
    ensures g < |gs| && j < |gs[g]| && k < |base.metadata.frames|
    ensures base.frames[k] == gs[g][j]
    ensures base.metadata.frames[k].chunkIndex == g
    ensures forall r: nat ::
      |GroupInfos(gs[g], r)| == |gs[g]| && base.metadata.frames[k].(chunkIndex := r) == GroupInfos(gs[g], r)[j]
    ensures if j + 1 == |gs[g]| then AtFrame(gs, k + 1, g + 1, 0) else AtFrame(gs, k + 1, g, j + 1)
  {
    hide *;
    BaseTables(env, base, gs);
    NextFrame(gs, k, g, j);
    InfoAt(gs, g, j);
    InfoMoves(gs[g], g, j);
  }

  lemma BaseTables(env: Env, base: Archive, gs: seq<Group>)
    requires GroupedBy(env, base, gs)
    ensures base.frames == Concat(gs) && base.metadata.frames == AllInfos(gs)
    ensures forall i :: 0 <= i < |gs| ==> gs[i] != []
  {
    assert forall i :: 0 <= i < |gs| ==> BundleOk(env, gs[i], base.bundles[i]);
  }

  /** The cursor at frame `k`, and after it. */
  lemma NextFrame(gs: seq<Group>, k: nat, g: nat, j: nat)
    requires AtFrame(gs, k, g, j) && k < |Concat(gs)| && forall i :: 0 <= i < |gs| ==> gs[i] != []
    ensures g < |gs| && j < |gs[g]| && k == First(gs, g) + j
    ensures if j + 1 == |gs[g]| then AtFrame(gs, k + 1, g + 1, 0) else AtFrame(gs, k + 1, g, j + 1)
  {
    assert gs[..|gs|] == gs;
    hide Concat;
    FirstNext(gs, if g < |gs| then g else 0);
  }

  lemma InfoMoves(g: Group, index: nat, j: nat)
    requires j < |g|
    ensures GroupInfos(g, index)[j].chunkIndex == index
    ensures forall r: nat ::
      |GroupInfos(g, r)| == |g| && GroupInfos(g, index)[j].(chunkIndex := r) == GroupInfos(g, r)[j]
  {}

  lemma IndicesNext(base: Archive, live: seq<bool>, k: nat, frames: seq<ArchiveFrame>, index: seq<nat>)
    requires NewIndices(base, live, k, frames, index) && k < |base.frames|
      && base.metadata.frames[k].chunkIndex < |live|
    ensures if live[base.metadata.frames[k].chunkIndex]
      then NewIndices(base, live, k + 1, frames + [base.frames[k]], index + [|frames|])
      else NewIndices(base, live, k + 1, frames, index + [U32_MAX])
  {}

  function ShiftFragments(frags: seq<Fragment>, n: nat): seq<Fragment> {
    seq(|frags|, i requires 0 <= i < |frags| => frags[i].(frameIndex := frags[i].frameIndex + n))
  }

  lemma ShiftCount(frags: seq<Fragment>, n: nat)
    ensures |ShiftFragments(frags, n)| == |frags|
  {}

  lemma ShiftPiece(f: Fragment, a: seq<Bytes>, b: seq<Bytes>)
    requires InFrame(f, b)
    ensures var g := f.(frameIndex := f.frameIndex + |a|);
      InFrame(g, a + b) && Piece(g, a + b) == Piece(f, b)
  {
    assert (a + b)[f.frameIndex + |a|] == b[f.frameIndex];
  }

  /** Frames before the tail's move its fragments along. */
  lemma {:induction false} ShiftRead(frags: seq<Fragment>, a: seq<Bytes>, b: seq<Bytes>)
    requires forall i :: 0 <= i < |frags| ==> InFrame(frags[i], b)
    ensures forall i :: 0 <= i < |frags| ==> InFrame(ShiftFragments(frags, |a|)[i], a + b)
    ensures Read(ShiftFragments(frags, |a|), a + b) == Read(frags, b)
  {
    hide InFrame, Piece;
    var shifted := ShiftFragments(frags, |a|);
    if frags != [] {
      ShiftRead(frags[1..], a, b);
      assert shifted[1..] == ShiftFragments(frags[1..], |a|);
      ShiftPiece(frags[0], a, b);
      assert forall i :: 0 < i < |frags| ==> shifted[i] == ShiftFragments(frags[1..], |a|)[i - 1];
    }
  }

  function ShiftInfos(infos: seq<FrameInfo>, n: nat): seq<FrameInfo> {
    seq(|infos|, i requires 0 <= i < |infos| => infos[i].(chunkIndex := infos[i].chunkIndex + n))
  }

  /** Bundles before the tail's move its frame table along. */
  lemma {:induction false} AllInfosAppend(a: seq<Group>, b: seq<Group>)
    ensures AllInfos(a + b) == AllInfos(a) + ShiftInfos(AllInfos(b), |a|)
  {
    if b == [] {
      assert a + b == a;
    } else {
      hide *;
      var n := |b| - 1;
      AllInfosAppend(a, b[..n]);
      AllInfosSnoc(a + b[..n], b[n]);
      AllInfosSnoc(b[..n], b[n]);
      assert a + b == a + b[..n] + [b[n]] && b == b[..n] + [b[n]];
      ShiftAppend(AllInfos(b[..n]), GroupInfos(b[n], n), |a|);
      ShiftGroup(b[n], n, |a|);
    }
  }

  lemma ShiftAppend(a: seq<FrameInfo>, b: seq<FrameInfo>, n: nat)
    ensures ShiftInfos(a + b, n) == ShiftInfos(a, n) + ShiftInfos(b, n)
  {}

  lemma ShiftGroup(g: Group, index: nat, n: nat)
    ensures ShiftInfos(GroupInfos(g, index), n) == GroupInfos(g, n + index)
  {}

  /** The blobs that hold bytes. */
  function Full(env: Env, ts: seq<TreeFile>): seq<TreeFile> {
    if ts == [] then [] else
      Full(env, ts[..|ts| - 1]) + if |env.blob(ts[|ts| - 1].oid)| > 0 then [ts[|ts| - 1]] else []
  }

  /** Leaving out empty blobs leaves the stream as it is. */
  lemma {:induction false} FullStream(env: Env, ts: seq<TreeFile>)
    ensures Stream(env, Full(env, ts)) == Stream(env, ts)
    ensures Full(env, ts) == [] <==> Stream(env, ts) == []
  {
    if ts != [] {
      var n := |ts| - 1;
      FullStream(env, ts[..n]);
      StreamSnoc(env, ts[..n], ts[n]);
      assert ts[..n] + [ts[n]] == ts;
      StreamSnoc(env, Full(env, ts[..n]), ts[n]);
      assert Full(env, ts[..n]) + [] == Full(env, ts[..n]);
    }
  }

  lemma StreamSnoc(env: Env, ts: seq<TreeFile>, t: TreeFile)
    ensures Stream(env, ts + [t]) == Stream(env, ts) + env.blob(t.oid)
  {
    ConcatSnoc(Contents(env, ts), env.blob(t.oid));
    assert Contents(env, ts + [t]) == Contents(env, ts) + [env.blob(t.oid)];
  }

  /** The tail's new frames, bundles and fragments. */
  datatype TailPart = TailPart(fragments: map<Oid, seq<Fragment>>, out: Out, bytesRead: nat)

  /** What the tail adds after `before` frames: bundles cut from its stream, and
      fragments over all frames that read back as its blobs. */
  ghost predicate TailOk(env: Env, part: TailPart, before: seq<ArchiveFrame>, tail: seq<TreeFile>, gs: seq<Group>) {
    && TablesOk(env, part.out, gs) && part.out.newBundles == part.out.bundles
    && BundlesNamed(env, gs, part.out.bundles)
    && part.fragments.Keys == Oids(tail)
    && AllSpelled(env, part.fragments, Raws(env, before + part.out.frames))
    && part.bytesRead == |Stream(env, tail)|
  }

  /** Empty blobs need no bytes: they point at frame 0. */
  method EmptyFragments(env: Env, tail: seq<TreeFile>) returns (m: map<Oid, seq<Fragment>>)
    ensures forall i :: 0 <= i < |tail| ==> (env.blob(tail[i].oid) == [] ==> tail[i].oid in m)
    ensures forall oid :: oid in m ==> oid in Oids(tail) && env.blob(oid) == [] && m[oid] == [Fragment(0, 0, 0)]
  {
    m := map[];
    for i := 0 to |tail|
      invariant forall j :: 0 <= j < i ==> (env.blob(tail[j].oid) == [] ==> tail[j].oid in m)
      invariant forall oid :: oid in m ==> oid in Oids(tail) && env.blob(oid) == [] && m[oid] == [Fragment(0, 0, 0)]
    {
      if |env.blob(tail[i].oid)| == 0 {
        m := m[tail[i].oid := [Fragment(0, 0, 0)]];
      }
    }
  }

  /** The part a tail adds for some blobs: their stream in bundles of its own, and
      their fragments counted on from `before`. */
  method StreamTail(env: Env, blobs: seq<TreeFile>, before: nat, target: nat, ghost kept: seq<ArchiveFrame>)
    returns (r: Result<TailPart>, ghost gs: seq<Group>)
    requires Lawful(env) && StreamKnown(env, Stream(env, blobs)) && blobs != [] && target <= U64_MAX
    requires before == |kept|
    ensures r.Ok? ==> TailOk(env, r.value, kept, blobs, gs) && r.value.out.frames != []
    ensures r.Err? ==> r.error in {Limit, Unreadable}
  {
    hide *;
    gs := [];
    SizesCount(env, blobs);
    var layout := NewLayout(blobs, [], BlobSizes(env, blobs));
    if layout.Err? {
      return Err(layout.error), gs;
    }
    var l := layout.value;
    NoBase(env);
    var b := new Bundler(env, Stores(map[], None), None, target);
    ReceivedNone(b);
    var bounds; ghost var fs;
    bounds, fs := StreamFrames(env, l, b);
    if bounds.Err? {
      return Err(bounds.error), gs;
    }
    ReceivedIs(b, fs);
    StreamedNonEmpty(l, bounds.value);
    if l.total == 0 { EmptyTreeCount(b, l, fs); }
    var closed := b.Close();
    if closed.Err? {
      return Err(closed.error), gs;
    }
    LayoutShape(env, l);
    TilesOfEmitted(env, l, bounds.value, fs, Stream(env, l.blobs));
    var files := FilesTable(env, l, bounds.value);
    if files.Err? {
      return Err(files.error), gs;
    }
    var fragments := ShiftFiles(env, l, bounds.value, files.value, before, fs, kept);
    TailGrouped(env, b, fs, target, bounds.value, l);
    gs := Bundled(fs, b.min, b.max);
    var part := TailPart(fragments, b.out, l.total);
    TailIs(env, part, kept, blobs, gs);
    return Ok(part), gs;
  }

  lemma NoBase(env: Env)
    ensures BaseOk(env, None) && StoresKnown(env, Stores(map[], None))
  {}

  lemma TailIs(env: Env, part: TailPart, before: seq<ArchiveFrame>, tail: seq<TreeFile>, gs: seq<Group>)
    requires TablesOk(env, part.out, gs) && part.out.newBundles == part.out.bundles
    requires BundlesNamed(env, gs, part.out.bundles)
    requires part.fragments.Keys == Oids(tail)
    requires AllSpelled(env, part.fragments, Raws(env, before + part.out.frames))
    requires part.bytesRead == |Stream(env, tail)|
    ensures TailOk(env, part, before, tail, gs)
  {}

  /** The tail's bundler put out the bundles of its frames, all of them new. */
  lemma TailGrouped(env: Env, b: Bundler, fs: seq<ArchiveFrame>, target: nat, bounds: Bounds, l: Layout)
    requires b.env == env && b.base == None && b.Valid() && b.min == MinLen(target) && b.max == MaxLen(target)
      && target <= U64_MAX
    requires b.cuts == Close(PushAll(NoCuts, fs, b.min, b.max))
    requires Emitted(env, Stream(env, l.blobs), bounds, fs, l.total) && bounds != []
    requires if l.total > 0 then NonEmpty(bounds) else |fs| <= 1
    ensures b.out.frames == fs && fs != []
    ensures TablesOk(env, b.out, Bundled(fs, b.min, b.max)) && b.out.newBundles == b.out.bundles
    ensures BundlesNamed(env, Bundled(fs, b.min, b.max), b.out.bundles)
  {
    hide *;
    LengthsOrdered(target);
    BuiltFrames(env, b, fs);
    HoldAll(env, Stream(env, l.blobs), bounds, fs, l.total);
    BuiltGrouped(env, b, fs, [], []);
    EmittedCount(env, Stream(env, l.blobs), bounds, fs, l.total);
    OutIs(b);
    AllNew(env, b.cuts.closed);
    BundleNames(env, b.out, b.cuts.closed);
    GroupsNamed(env, Archive(b.out.frames, Metadata(b.out.infos, [], []), b.out.bundles), Bundled(fs, b.min, b.max));
  }

  lemma OutIs(b: Bundler)
    requires b.Valid() && b.base == None
    ensures TablesOk(b.env, b.out, b.cuts.closed) && b.out.newBundles == NewOnes(b.env, None, b.cuts.closed)
  {
    hide TablesOk, NewOnes, GroupOk, Lawful, StoresKnown, BaseOk;
  }

  lemma GroupsNamed(env: Env, a: Archive, gs: seq<Group>)
    requires GroupedBy(env, a, gs)
    ensures BundlesNamed(env, gs, a.bundles)
  {}

  lemma BundleNames(env: Env, out: Out, gs: seq<Group>)
    requires TablesOk(env, out, gs)
    ensures |out.bundles| == |gs| && forall g :: 0 <= g < |gs| ==> out.bundles[g] == env.hash(Body(env, gs[g]))
  {}

  lemma {:induction false} AllNew(env: Env, gs: seq<Group>)
    ensures |NewOnes(env, None, gs)| == |gs|
    ensures forall g :: 0 <= g < |gs| ==> NewOnes(env, None, gs)[g] == env.hash(Body(env, gs[g]))
  {
    if gs != [] {
      AllNew(env, gs[..|gs| - 1]);
    }
  }

  /** The fragments of the tail's blobs, over all frames. */
  method ShiftFiles(env: Env, l: Layout, bounds: Bounds, files: seq<FileEntry>, before: nat,
                    ghost fs: seq<ArchiveFrame>, ghost kept: seq<ArchiveFrame>)
    returns (m: map<Oid, seq<Fragment>>)
    requires ValidLayout(env, l) && |files| == |l.blobs| && before == |kept| && bounds != []
    requires Emitted(env, Stream(env, l.blobs), bounds, fs, l.total)
    requires forall i :: 0 <= i < |files| ==> FileAt(files[i], l.blobs[i], bounds, l.starts[i], l.sizes[i])
    ensures m.Keys == Oids(l.blobs) && AllSpelled(env, m, Raws(env, kept + fs))
  {
    hide ValidLayout, Stream, Emitted, FileAt, Spelled, Oids;
    TotalIsLength(env, l);
    EmittedAll(env, Stream(env, l.blobs), bounds, fs);
    OidsNone(l.blobs);
    m := map[];
    for i := 0 to |l.blobs|
      invariant m.Keys == Oids(l.blobs[..i]) && AllSpelled(env, m, Raws(env, kept + fs))
    {
      ShiftedFile(env, l, bounds, files[i], fs, kept, i);
      OidsNext(l.blobs[..i], l.blobs[i]);
      assert l.blobs[..i] + [l.blobs[i]] == l.blobs[..i + 1];
      m := m[l.blobs[i].oid := ShiftFragments(files[i].fragments, before)];
    }
    assert l.blobs[..|l.blobs|] == l.blobs;
  }

  lemma OidsNone(ts: seq<TreeFile>)
    ensures Oids(ts[..0]) == {}
  {}

  lemma ShiftedFile(env: Env, l: Layout, bounds: Bounds, entry: FileEntry, fs: seq<ArchiveFrame>,
                    kept: seq<ArchiveFrame>, i: nat)
    requires ValidLayout(env, l) && FramesOf(Raws(env, fs), bounds, Stream(env, l.blobs)) && i < |l.blobs|
    requires FileAt(entry, l.blobs[i], bounds, l.starts[i], l.sizes[i])
    ensures Spelled(env, ShiftFragments(entry.fragments, |kept|), l.blobs[i].oid, Raws(env, kept + fs))
  {
    hide ValidLayout, FramesOf, FileAt, Stream, Read, InFrame, ShiftFragments;
    FileAtHolds(env, l, bounds, Raws(env, fs), entry, i);
    assert |ShiftFragments(entry.fragments, |kept|)| == |entry.fragments| by { ShiftCount(entry.fragments, |kept|); }
    ShiftRead(entry.fragments, Raws(env, kept), Raws(env, fs));
    assert Raws(env, kept + fs) == Raws(env, kept) + Raws(env, fs);
  }

  function KeptLists(kept: seq<Option<seq<Fragment>>>): seq<seq<Fragment>> {
    seq(|kept|, i requires 0 <= i < |kept| => if kept[i].Some? then kept[i].value else [])
  }

  lemma {:induction false} UsedInOne(ss: seq<seq<Fragment>>, infos: seq<FrameInfo>, g: nat)
    ensures Used(Concat(ss), infos, g) <==> exists i :: 0 <= i < |ss| && Used(ss[i], infos, g)
  {
    if ss != [] {
      UsedInOne(ss[1..], infos, g);
      UsedEither(ss[0], Concat(ss[1..]), infos, g);
      assert forall i :: 0 < i < |ss| ==> ss[i] == ss[1..][i - 1];
    }
  }

  lemma UsedEither(a: seq<Fragment>, b: seq<Fragment>, infos: seq<FrameInfo>, g: nat)
    ensures Used(a + b, infos, g) <==> Used(a, infos, g) || Used(b, infos, g)
  {
    if Used(a, infos, g) {
      var n :| 0 <= n < |a| && a[n].frameIndex < |infos| && infos[a[n].frameIndex].chunkIndex == g;
      assert (a + b)[n] == a[n];
    }
    if Used(b, infos, g) {
      var n :| 0 <= n < |b| && b[n].frameIndex < |infos| && infos[b[n].frameIndex].chunkIndex == g;
      assert (a + b)[|a| + n] == b[n];
    }
  }

  /** The new tree uses bundle `g` of the base. */
  ghost predicate TreeUses(blobs: seq<TreeFile>, files: seq<FileEntry>, infos: seq<FrameInfo>, g: nat) {
    exists i :: 0 <= i < |blobs| && blobs[i].oid in Held(files) && Used(LastWith(files, blobs[i].oid), infos, g)
  }

  ghost predicate KeptIs(kept: seq<Option<seq<Fragment>>>, blobs: seq<TreeFile>, files: seq<FileEntry>) {
    && |kept| == |blobs|
    && forall i :: 0 <= i < |blobs| ==>
         kept[i] == if blobs[i].oid in Held(files) then Some(LastWith(files, blobs[i].oid)) else None
  }

  lemma LiveIsUsed(kept: seq<Option<seq<Fragment>>>, blobs: seq<TreeFile>, files: seq<FileEntry>, infos: seq<FrameInfo>,
                   g: nat)
    requires KeptIs(kept, blobs, files)
    ensures Used(Concat(KeptLists(kept)), infos, g) <==> TreeUses(blobs, files, infos, g)
  {
    hide LastWith, Concat;
    var ss := KeptLists(kept);
    UsedInOne(ss, infos, g);
    if Used(Concat(ss), infos, g) {
      var i :| 0 <= i < |ss| && Used(ss[i], infos, g);
      assert blobs[i].oid in Held(files);
    }
    if TreeUses(blobs, files, infos, g) {
      var i :| 0 <= i < |blobs| && blobs[i].oid in Held(files) && Used(LastWith(files, blobs[i].oid), infos, g);
      assert Used(ss[i], infos, g);
    }
  }

  function Renumber(frags: seq<Fragment>, index: seq<nat>): seq<Fragment> {
    seq(|frags|, i requires 0 <= i < |frags| =>
      frags[i].(frameIndex := if frags[i].frameIndex < |index| then index[frags[i].frameIndex] else 0))
  }

  /** The fragment's frame is at its new index. */
  ghost predicate Moved(f: Fragment, index: seq<nat>, a: seq<Bytes>, b: seq<Bytes>) {
    && InFrame(f, a) && f.frameIndex < |index|
    && index[f.frameIndex] < |b| && b[index[f.frameIndex]] == a[f.frameIndex]
  }

  lemma MovedPiece(f: Fragment, index: seq<nat>, a: seq<Bytes>, b: seq<Bytes>)
    requires Moved(f, index, a, b)
    ensures Piece(Renumber([f], index)[0], b) == Piece(f, a)
  {}

  lemma NoneRenumbered(index: seq<nat>)
    ensures Renumber([], index) == []
  {}

  lemma RenumberFirst(frags: seq<Fragment>, index: seq<nat>)
    requires frags != []
    ensures Renumber(frags, index) == [Renumber([frags[0]], index)[0]] + Renumber(frags[1..], index)
  {}

  /** Fragments renumbered with their frames read back the same. */
  lemma {:induction false} RenumberRead(frags: seq<Fragment>, index: seq<nat>, a: seq<Bytes>, b: seq<Bytes>)
    requires forall i :: 0 <= i < |frags| ==> Moved(frags[i], index, a, b)
    ensures Read(Renumber(frags, index), b) == Read(frags, a)
  {
    hide Moved, Piece, Renumber;
    if frags == [] {
      NoneRenumbered(index);
    } else {
      RenumberRead(frags[1..], index, a, b);
      RenumberFirst(frags, index);
      MovedPiece(frags[0], index, a, b);
    }
  }

  /** Every bundle of these fragments is live. */
  ghost predicate InLive(frags: seq<Fragment>, infos: seq<FrameInfo>, live: seq<bool>) {
    forall i :: 0 <= i < |frags| ==>
      frags[i].frameIndex < |infos| && infos[frags[i].frameIndex].chunkIndex < |live|
        && live[infos[frags[i].frameIndex].chunkIndex]
  }

  lemma KeptSpelled(env: Env, base: Archive, frags: seq<Fragment>, oid: Oid, live: seq<bool>, index: seq<nat>,
                    frames: seq<ArchiveFrame>, more: seq<ArchiveFrame>)
    requires Spelled(env, frags, oid, Raws(env, base.frames)) && InLive(frags, base.metadata.frames, live)
    requires NewIndices(base, live, |base.frames|, frames, index)
    ensures Spelled(env, Renumber(frags, index), oid, Raws(env, frames + more))
  {
    var a, b := Raws(env, base.frames), Raws(env, frames + more);
    assert forall k :: 0 <= k < |frames| ==> b[k] == Raw(env, frames[k]);
    forall i | 0 <= i < |frags| ensures Moved(frags[i], index, a, b) {
      assert InFrame(frags[i], a);
    }
    RenumberRead(frags, index, a, b);
    assert forall i :: 0 <= i < |frags| ==> Moved(frags[i], index, a, b);
    hide Read;
  }

  lemma EmptySpelled(env: Env, oid: Oid, raws: seq<Bytes>)
    requires env.blob(oid) == [] && raws != []
    ensures Spelled(env, [Fragment(0, 0, 0)], oid, raws)
  {
    assert [Fragment(0, 0, 0)][1..] == [];
  }

  lemma {:induction false} FullOids(env: Env, ts: seq<TreeFile>)
    ensures Oids(Full(env, ts)) <= Oids(ts)
    ensures forall i :: 0 <= i < |ts| && env.blob(ts[i].oid) != [] ==> ts[i].oid in Oids(Full(env, ts))
    ensures Full(env, ts) == [] <==> forall i :: 0 <= i < |ts| ==> env.blob(ts[i].oid) == []
  {
    hide Oids;
    if ts != [] {
      var n := |ts| - 1;
      FullOids(env, ts[..n]);
      OidsNext(ts[..n], ts[n]);
      OidsNext(Full(env, ts[..n]), ts[n]);
      assert ts[..n] + [ts[n]] == ts;
      assert Full(env, ts[..n]) + [] == Full(env, ts[..n]);
      forall i | 0 <= i < |ts| && env.blob(ts[i].oid) != [] ensures ts[i].oid in Oids(Full(env, ts)) {
        if i < n {
          assert ts[..n][i] == ts[i];
        }
      }
      assert forall i :: 0 <= i < n ==> ts[..n][i] == ts[i];
    }
  }

  /** The fragments of empty and streamed blobs together are the tail's. */
  lemma TailWhole(env: Env, part: TailPart, empties: map<Oid, seq<Fragment>>, before: seq<ArchiveFrame>,
                  tail: seq<TreeFile>, gs: seq<Group>)
    requires TailOk(env, part, before, Full(env, tail), gs) && before + part.out.frames != []
    requires forall i :: 0 <= i < |tail| ==> (env.blob(tail[i].oid) == [] ==> tail[i].oid in empties)
    requires forall oid :: oid in empties ==>
      oid in Oids(tail) && env.blob(oid) == [] && empties[oid] == [Fragment(0, 0, 0)]
    ensures TailOk(env, part.(fragments := empties + part.fragments), before, tail, gs)
  {
    hide TablesOk, Spelled, Stream, GroupLen;
    FullStream(env, tail);
    FullOids(env, tail);
    var m, raws := empties + part.fragments, Raws(env, before + part.out.frames);
    forall oid | oid in m ensures Spelled(env, m[oid], oid, raws) {
      if oid !in part.fragments {
        EmptySpelled(env, oid, raws);
      }
    }
    assert m.Keys == Oids(tail);
  }

  lemma NoTail(env: Env, before: seq<ArchiveFrame>)
    ensures TailOk(env, TailPart(map[], NoOut, 0), before, [], [])
  {}

  /** Everything the tail adds. Blobs of no bytes need no frame of their own as long
      as there is any frame to point at. */
  method AddTail(env: Env, tail: seq<TreeFile>, before: nat, target: nat, ghost kept: seq<ArchiveFrame>)
    returns (r: Result<TailPart>, ghost gs: seq<Group>)
    requires Lawful(env) && StreamKnown(env, Stream(env, tail)) && target <= U64_MAX
    requires before == |kept|
    ensures r.Ok? ==> TailOk(env, r.value, kept, tail, gs)
    ensures r.Ok? && tail != [] ==> kept + r.value.out.frames != []
    ensures r.Err? ==> r.error in {Limit, Unreadable}
  {
    hide *;
    FullStream(env, tail);
    FullOids(env, tail);
    NoTail(env, kept);
    var streamsBytes := exists i :: 0 <= i < |tail| && |env.blob(tail[i].oid)| > 0;
    if before == 0 && !streamsBytes {
      if |tail| == 0 {
        return Ok(TailPart(map[], NoOut, 0)), [];
      }
      r, gs := StreamTail(env, tail, before, target, kept);
      return;
    }
    var empties := EmptyFragments(env, tail);
    var full := Full(env, tail);
    if |full| == 0 {
      r, gs := Ok(TailPart(map[], NoOut, 0)), [];
    } else {
      r, gs := StreamTail(env, full, before, target, kept);
      if r.Err? {
        return;
      }
    }
    TailWhole(env, r.value, empties, kept, tail, gs);
    r := Ok(r.value.(fragments := empties + r.value.fragments));
  }

  /** The files table: kept fragments renumbered, the others looked up by blob. */
  method TailFiles(env: Env, blobs: seq<TreeFile>, kept: seq<Option<seq<Fragment>>>, index: seq<nat>,
                   tail: map<Oid, seq<Fragment>>, ghost raws: seq<Bytes>)
    returns (r: Result<seq<FileEntry>>)
    requires |kept| == |blobs|
    requires forall i :: 0 <= i < |blobs| ==>
      if kept[i].Some? then Spelled(env, Renumber(kept[i].value, index), blobs[i].oid, raws) else blobs[i].oid in tail
    requires AllSpelled(env, tail, raws)
    ensures r.Ok? && FilesHold(env, r.value, blobs, raws)
  {
    hide Read, InFrame, Renumber;
    var files: seq<FileEntry> := [];
    for i := 0 to |blobs|
      invariant |files| == i && forall j :: 0 <= j < i ==> FileHolds(env, files[j], blobs[j], raws)
    {
      var blob := blobs[i];
      var fragments: seq<Fragment>;
      if kept[i].Some? {
        fragments := Renumber(kept[i].value, index);
      } else if blob.oid in tail {
        fragments := tail[blob.oid];
      } else {
        return Err(NoFragments);
      }
      files := files + [FileEntry(blob.path, blob.mode, blob.oid, fragments)];
    }
    return Ok(files);
  }

  /** The bundles are well-formed, under these names. */
  ghost predicate BundlesNamed(env: Env, gs: seq<Group>, names: seq<Digest>) {
    |names| == |gs| && forall g :: 0 <= g < |gs| ==> BundleOk(env, gs[g], names[g])
  }

  lemma BundlesJoin(env: Env, a: seq<Group>, b: seq<Group>, an: seq<Digest>, bn: seq<Digest>)
    requires BundlesNamed(env, a, an) && BundlesNamed(env, b, bn)
    ensures BundlesNamed(env, a + b, an + bn)
  {
    hide BundleOk;
    forall g | 0 <= g < |a + b| ensures BundleOk(env, (a + b)[g], (an + bn)[g]) {
      assert if g < |a| then (a + b)[g] == a[g] else (a + b)[g] == b[g - |a|];
    }
  }

  lemma FramesJoin(env: Env, a: seq<ArchiveFrame>, b: seq<ArchiveFrame>)
    requires FramesOk(env, a) && FramesOk(env, b)
    ensures FramesOk(env, a + b)
  {
    hide FrameOk;
  }

  lemma IsGrouped(env: Env, a: Archive, gs: seq<Group>)
    requires a.frames == Concat(gs) && a.metadata.frames == AllInfos(gs) && BundlesNamed(env, gs, a.bundles)
      && FramesOk(env, a.frames)
    ensures GroupedBy(env, a, gs)
  {
    hide Concat, AllInfos, BundleOk, FramesOk;
  }

  lemma TailGroups(env: Env, part: TailPart, before: seq<ArchiveFrame>, tail: seq<TreeFile>, tgs: seq<Group>)
    requires TailOk(env, part, before, tail, tgs)
    ensures part.out.frames == Concat(tgs) && part.out.infos == AllInfos(tgs)
    ensures BundlesNamed(env, tgs, part.out.bundles) && FramesOk(env, part.out.frames)
  {
    hide Stream, AllSpelled, Oids, Raws, Concat, AllInfos, Body, GroupLen, FrameOk;
  }

  /** The base's kept bundles then the tail's are the new archive's. */
  lemma TailArchiveGrouped(env: Env, base: Archive, gs: seq<Group>, live: seq<bool>, part: TailPart, tgs: seq<Group>,
                           before: seq<ArchiveFrame>, tail: seq<TreeFile>, files: seq<FileEntry>, gitlinks: seq<Bytes>)
    requires GroupedBy(env, base, gs) && |live| == |gs| && TailOk(env, part, before, tail, tgs)
    requires before == Concat(Pick(gs, live, |gs|))
    ensures
      var kept := Pick(gs, live, |gs|);
      var a := Archive(before + part.out.frames,
                       Metadata(AllInfos(kept) + ShiftInfos(part.out.infos, |kept|), files, gitlinks),
                       Pick(base.bundles, live, |live|) + part.out.bundles);
      GroupedBy(env, a, kept + tgs)
  {
    hide *;
    BaseShape(env, base, gs);
    var kept := Pick(gs, live, |gs|);
    var names := Pick(base.bundles, live, |live|);
    ConcatAppend(kept, tgs);
    AllInfosAppend(kept, tgs);
    PickNamed(env, base, gs, live, |gs|);
    TailGroups(env, part, before, tail, tgs);
    FramesJoin(env, before, part.out.frames);
    BundlesJoin(env, kept, tgs, names, part.out.bundles);
    IsGrouped(env, Archive(before + part.out.frames,
                           Metadata(AllInfos(kept) + ShiftInfos(part.out.infos, |kept|), files, gitlinks),
                           names + part.out.bundles), kept + tgs);
  }

  lemma NoFramesOk(env: Env)
    ensures FramesOk(env, Concat([]))
  {}

  lemma GroupedFrames(env: Env, base: Archive, gs: seq<Group>)
    requires GroupedBy(env, base, gs)
    ensures FramesOk(env, Concat(gs))
  {}

  lemma NoBundlesNamed(env: Env)
    ensures BundlesNamed(env, [], [])
  {}

  lemma OneNamed(env: Env, base: Archive, gs: seq<Group>, g: nat)
    requires GroupedBy(env, base, gs) && g < |gs|
    ensures g < |base.bundles| && BundlesNamed(env, [gs[g]], [base.bundles[g]])
  {
    hide Body, GroupLen, AllInfos, Concat, FramesOk;
  }

  /** The kept bundles are well-formed, under their names. */
  lemma {:induction false} PickNamed(env: Env, base: Archive, gs: seq<Group>, live: seq<bool>, n: nat)
    requires GroupedBy(env, base, gs) && |live| == |gs| && n <= |gs|
    ensures FramesOk(env, Concat(Pick(gs, live, n)))
    ensures BundlesNamed(env, Pick(gs, live, n), Pick(base.bundles, live, n))
  {
    hide FramesOk, Body, GroupLen, AllInfos, Concat, Rank, BundlesNamed;
    if n == 0 {
      NoFramesOk(env);
      NoBundlesNamed(env);
    } else {
      PickNamed(env, base, gs, live, n - 1);
      GroupedFrames(env, base, gs);
      GroupFramesOk(env, gs, n - 1);
      PickNext(gs, live, n - 1);
      PickNext(base.bundles, live, n - 1);
      ConcatSnoc(Pick(gs, live, n - 1), gs[n - 1]);
      FramesJoin(env, Concat(Pick(gs, live, n - 1)), gs[n - 1]);
      OneNamed(env, base, gs, n - 1);
      BundlesJoin(env, Pick(gs, live, n - 1), [gs[n - 1]], Pick(base.bundles, live, n - 1), [base.bundles[n - 1]]);
    }
  }

  /** Build the archive of a tree as a tail on a well-formed base. It is exactly
      the tree; it keeps exactly the base bundles the tree uses, renumbered in
      order, and reads each new blob once. */
  method BuildTail(env: Env, blobs: seq<TreeFile>, gitlinks: seq<Bytes>, base: Archive, target: nat,
                   ghost gs: seq<Group>, ghost tree: seq<TreeFile>)
    returns (r: Result<Built>, ghost live: seq<bool>)
    requires Lawful(env) && target <= U64_MAX
    requires GroupedBy(env, base, gs) && FilesHold(env, base.metadata.files, tree, Raws(env, base.frames))
    requires StreamKnown(env, Stream(env, FirstNew(blobs, Held(base.metadata.files), |blobs|)))
    ensures r.Ok? ==> Sound(env, r.value.archive, blobs, gitlinks)
    ensures r.Ok? ==>
      |live| == |base.bundles| && r.value.archive.bundles == Pick(base.bundles, live, |live|) + r.value.newBundles
    ensures r.Ok? ==> forall g :: 0 <= g < |live| ==>
      (live[g] <==> TreeUses(blobs, base.metadata.files, base.metadata.frames, g))
    ensures r.Ok? ==> r.value.bytesRead == |Stream(env, FirstNew(blobs, Held(base.metadata.files), |blobs|))|
    ensures r.Err? ==> r.error in {Limit, Unreadable}
  {
    hide *;
    live := [];
    BaseShape(env, base, gs);
    if |base.metadata.frames| != |base.frames| {
      return Err(BadBase), live;
    }
    var byBlob := ByBlob(env, base.metadata.files, tree, Raws(env, base.frames));
    var kept, tail := SplitBlobs(blobs, byBlob);
    KeptByBlob(env, base, gs, byBlob, kept, blobs);
    var marked := MarkLive(Concat(KeptLists(kept)), base.metadata.frames, |base.bundles|);
    live := marked.value;
    LiveMarks(kept, blobs, base.metadata.files, base.metadata.frames, live);
    var bundles := KeepBundles(base.bundles, marked.value);
    if bundles.Err? {
      return Err(bundles.error), live;
    }
    var infos, frames, index := RenumberFrames(env, base, bundles.value.1, gs, live);
    var part; ghost var tgs;
    part, tgs := AddTail(env, tail, |frames|, target, frames);
    if part.Err? {
      return Err(part.error), live;
    }
    FilesReady(env, base, kept, blobs, byBlob, live, index, frames, part.value, tail, tgs);
    var files := TailFiles(env, blobs, kept, index, part.value.fragments, Raws(env, frames + part.value.out.frames));
    TailArchiveGrouped(env, base, gs, live, part.value, tgs, frames, tail, files.value, gitlinks);
    TailFacts(env, part.value, frames, tail, tgs);
    var archive := Archive(frames + part.value.out.frames,
                           Metadata(infos + ShiftInfos(part.value.out.infos, |bundles.value.0|), files.value, gitlinks),
                           bundles.value.0 + part.value.out.bundles);
    PickCount(base.bundles, gs, live);
    IsSound(env, archive, Pick(gs, live, |gs|) + tgs, blobs, gitlinks);
    var reuse := Reuse(part.value.out.reuse.framesBuilt, |frames|, part.value.out.reuse.bundlesBuilt,
      |bundles.value.0|);
    return Ok(Built(archive, part.value.out.newBundles, reuse, part.value.bytesRead)), live;
  }

  lemma BaseShape(env: Env, base: Archive, gs: seq<Group>)
    requires GroupedBy(env, base, gs)
    ensures |base.metadata.frames| == |base.frames| && |base.bundles| == |gs|
  {
    AllInfosLen(gs);
  }

  lemma PickCount<S, T>(a: seq<S>, b: seq<T>, live: seq<bool>)
    requires |a| == |b| == |live|
    ensures |Pick(a, live, |live|)| == |Pick(b, live, |live|)|
  {}

  lemma TailFacts(env: Env, part: TailPart, before: seq<ArchiveFrame>, tail: seq<TreeFile>, gs: seq<Group>)
    requires TailOk(env, part, before, tail, gs)
    ensures part.out.newBundles == part.out.bundles && part.bytesRead == |Stream(env, tail)|
  {}

  lemma IsSound(env: Env, a: Archive, gs: seq<Group>, tree: seq<TreeFile>, gitlinks: seq<Bytes>)
    requires GroupedBy(env, a, gs) && a.metadata.gitlinks == gitlinks
    requires FilesHold(env, a.metadata.files, tree, Raws(env, a.frames))
    ensures Sound(env, a, tree, gitlinks)
  {}

  /** The kept fragments are the base's, and lie in its frames. */
  lemma KeptByBlob(env: Env, base: Archive, gs: seq<Group>, byBlob: map<Oid, seq<Fragment>>,
                   kept: seq<Option<seq<Fragment>>>, blobs: seq<TreeFile>)
    requires GroupedBy(env, base, gs) && AllSpelled(env, byBlob, Raws(env, base.frames))
    requires byBlob.Keys == Held(base.metadata.files) && forall oid :: oid in byBlob ==>
      byBlob[oid] == LastWith(base.metadata.files, oid)
    requires |kept| == |blobs| && forall i :: 0 <= i < |blobs| ==>
      kept[i] == if blobs[i].oid in byBlob then Some(byBlob[blobs[i].oid]) else None
    ensures KeptIs(kept, blobs, base.metadata.files)
    ensures InBundles(Concat(KeptLists(kept)), base.metadata.frames, |base.bundles|)
  {
    hide Read, LastWith;
    var ss := KeptLists(kept);
    forall n | 0 <= n < |Concat(ss)|
      ensures Concat(ss)[n].frameIndex < |base.metadata.frames|
        && base.metadata.frames[Concat(ss)[n].frameIndex].chunkIndex < |base.bundles|
    {
      var i, j := PartOf(ss, n);
      assert Spelled(env, byBlob[blobs[i].oid], blobs[i].oid, Raws(env, base.frames));
      assert InFrame(ss[i][j], Raws(env, base.frames));
      ChunkOf(env, base, gs, Concat(ss)[n].frameIndex);
    }
  }

  lemma ChunkOf(env: Env, base: Archive, gs: seq<Group>, k: nat)
    requires GroupedBy(env, base, gs) && k < |base.frames|
    ensures k < |base.metadata.frames| && base.metadata.frames[k].chunkIndex < |base.bundles|
  {
    var g, j := Locate(gs, k);
    InfoAt(gs, g, j);
  }

  lemma {:induction false} PartOf<T>(ss: seq<seq<T>>, n: nat) returns (i: nat, j: nat)
    requires n < |Concat(ss)|
    ensures i < |ss| && j < |ss[i]| && Concat(ss)[n] == ss[i][j]
  {
    if n < |ss[0]| {
      i, j := 0, n;
    } else {
      i, j := PartOf(ss[1..], n - |ss[0]|);
      i := i + 1;
    }
  }

  lemma LiveMarks(kept: seq<Option<seq<Fragment>>>, blobs: seq<TreeFile>, files: seq<FileEntry>, infos: seq<FrameInfo>,
                  live: seq<bool>)
    requires KeptIs(kept, blobs, files)
    requires forall g :: 0 <= g < |live| ==> (live[g] <==> Used(Concat(KeptLists(kept)), infos, g))
    ensures forall g :: 0 <= g < |live| ==> (live[g] <==> TreeUses(blobs, files, infos, g))
  {
    forall g | 0 <= g < |live| ensures live[g] <==> TreeUses(blobs, files, infos, g) {
      LiveIsUsed(kept, blobs, files, infos, g);
    }
  }

  /** Every file of the tree has fragments that read back as its blob. */
  lemma {:induction false} FilesReady(env: Env, base: Archive, kept: seq<Option<seq<Fragment>>>, blobs: seq<TreeFile>,
                                      byBlob: map<Oid, seq<Fragment>>,
                   live: seq<bool>, index: seq<nat>, frames: seq<ArchiveFrame>, part: TailPart, tail: seq<TreeFile>,
                     tgs: seq<Group>)
    requires AllSpelled(env, byBlob, Raws(env, base.frames)) && byBlob.Keys == Held(base.metadata.files)
    requires |kept| == |blobs| && forall i :: 0 <= i < |blobs| ==>
      kept[i] == if blobs[i].oid in byBlob then Some(byBlob[blobs[i].oid]) else None
    requires NewIndices(base, live, |base.frames|, frames, index)
    requires forall g :: 0 <= g < |live| ==> (live[g] <==> Used(Concat(KeptLists(kept)), base.metadata.frames, g))
    requires tail == FirstNew(blobs, byBlob.Keys, |blobs|) && TailOk(env, part, frames, tail, tgs)
    ensures AllSpelled(env, part.fragments, Raws(env, frames + part.out.frames))
    ensures forall i :: 0 <= i < |blobs| ==>
      if kept[i].Some?
        then Spelled(env, Renumber(kept[i].value, index), blobs[i].oid, Raws(env, frames + part.out.frames))
        else blobs[i].oid in part.fragments
  {
    hide Read, Renumber, TablesOk, Stream, FirstNew, GroupLen;
    FirstNewEach(blobs, byBlob.Keys, |blobs|);
    assert blobs[..|blobs|] == blobs;
    forall i | 0 <= i < |blobs|
      ensures if kept[i].Some?
        then Spelled(env, Renumber(kept[i].value, index), blobs[i].oid, Raws(env, frames + part.out.frames))
        else blobs[i].oid in part.fragments
    {
      if kept[i].Some? {
        KeptInLive(env, base, kept, blobs[i].oid, i, live);
        KeptSpelled(env, base, kept[i].value, blobs[i].oid, live, index, frames, part.out.frames);
      } else {
        assert blobs[i].oid in Oids(blobs);
      }
    }
  }

  lemma KeptInLive(env: Env, base: Archive, kept: seq<Option<seq<Fragment>>>, oid: Oid, i: nat, live: seq<bool>)
    requires i < |kept| && kept[i].Some? && Spelled(env, kept[i].value, oid, Raws(env, base.frames))
    requires |base.metadata.frames| == |base.frames|
    requires forall k :: 0 <= k < |base.frames| ==> base.metadata.frames[k].chunkIndex < |live|
    requires forall g :: 0 <= g < |live| ==> (live[g] <==> Used(Concat(KeptLists(kept)), base.metadata.frames, g))
    ensures InLive(kept[i].value, base.metadata.frames, live)
  {
    hide Read, Concat;
    var frags, infos, ss := kept[i].value, base.metadata.frames, KeptLists(kept);
    forall n | 0 <= n < |frags|
      ensures frags[n].frameIndex < |infos| && infos[frags[n].frameIndex].chunkIndex < |live|
        && live[infos[frags[n].frameIndex].chunkIndex]
    {
      assert InFrame(frags[n], Raws(env, base.frames));
      var g := infos[frags[n].frameIndex].chunkIndex;
      assert Used(ss[i], infos, g);
      UsedInOne(ss, infos, g);
    }
  }
}
