/** Where the frames of one table are in another (rust/src/manifest.rs,
    `frame_map` and `compose_frame_maps`). */
module FrameMaps {
  import opened Clonepack
  import opened Seqs
  import opened Fragments
  import opened Grouping
  import opened Archives
  import opened Builds
  import opened Deltas

  predicate InBundles(frames: seq<FrameInfo>, bundles: seq<Digest>) {
    forall k :: 0 <= k < |frames| ==> frames[k].chunkIndex < |bundles|
  }

  /** Two rows that name one place: bundles of one name, and one offset in them. */
  predicate Same(a: FrameInfo, aBundles: seq<Digest>, b: FrameInfo, bBundles: seq<Digest>) {
    && a.chunkIndex < |aBundles| && b.chunkIndex < |bBundles|
    && aBundles[a.chunkIndex] == bBundles[b.chunkIndex] && a.chunkOffset == b.chunkOffset
  }

  /** The slot names the last frame of `to` that is the same, or says there is none. */
  ghost predicate SlotOk(frame: FrameInfo, fromBundles: seq<Digest>, to: seq<FrameInfo>, toBundles: seq<Digest>,
                         slot: nat) {
    && slot <= |to|
    && (slot > 0 ==> Same(frame, fromBundles, to[slot - 1], toBundles))
    && forall j :: slot <= j < |to| ==> !Same(frame, fromBundles, to[j], toBundles)
  }

  function KeyOf(f: FrameInfo, bundles: seq<Digest>): (Digest, nat) {
    (if f.chunkIndex < |bundles| then bundles[f.chunkIndex] else [], f.chunkOffset)
  }

  /** Frame `n - 1` is the last of `frames` with this key. */
  ghost predicate IsLast(frames: seq<FrameInfo>, bundles: seq<Digest>, key: (Digest, nat), n: nat) {
    && 0 < n <= |frames| && KeyOf(frames[n - 1], bundles) == key
    && forall i :: n <= i < |frames| ==> KeyOf(frames[i], bundles) != key
  }

  /** Each key leads to the last frame that has it. */
  ghost predicate Indexed(at: map<(Digest, nat), nat>, frames: seq<FrameInfo>, bundles: seq<Digest>) {
    && (forall key :: key in at ==> IsLast(frames, bundles, key, at[key]))
    && (forall i :: 0 <= i < |frames| ==> KeyOf(frames[i], bundles) in at)
  }

  lemma LastNext(frames: seq<FrameInfo>, bundles: seq<Digest>, key: (Digest, nat), n: nat, f: FrameInfo)
    requires IsLast(frames, bundles, key, n) && KeyOf(f, bundles) != key
    ensures IsLast(frames + [f], bundles, key, n)
  {}

  lemma LastNew(frames: seq<FrameInfo>, bundles: seq<Digest>, f: FrameInfo)
    ensures IsLast(frames + [f], bundles, KeyOf(f, bundles), |frames| + 1)
  {}

  lemma IndexNext(at: map<(Digest, nat), nat>, frames: seq<FrameInfo>, bundles: seq<Digest>, f: FrameInfo)
    requires Indexed(at, frames, bundles)
    ensures Indexed(at[KeyOf(f, bundles) := |frames| + 1], frames + [f], bundles)
  {
    var key, next := KeyOf(f, bundles), at[KeyOf(f, bundles) := |frames| + 1];
    LastNew(frames, bundles, f);
    forall other | other in at && other != key ensures IsLast(frames + [f], bundles, other, at[other]) {
      LastNext(frames, bundles, other, at[other], f);
    }
    hide IsLast, KeyOf;
    assert forall i :: 0 <= i < |frames| ==> (frames + [f])[i] == frames[i];
  }

  method IndexFrames(to: seq<FrameInfo>, bundles: seq<Digest>) returns (r: Result<map<(Digest, nat), nat>>)
    ensures r.Ok? <==> InBundles(to, bundles) && |to| <= U32_MAX
    ensures r.Ok? ==> Indexed(r.value, to, bundles)
  {
    hide Indexed, KeyOf;
    var at: map<(Digest, nat), nat> := map[];
    IndexNone(bundles);
    for j := 0 to |to|
      invariant InBundles(to[..j], bundles) && j <= U32_MAX
      invariant Indexed(at, to[..j], bundles)
    {
      if j + 1 > U32_MAX || to[j].chunkIndex >= |bundles| {
        return Err(Limit);
      }
      IndexNext(at, to[..j], bundles, to[j]);
      assert to[..j] + [to[j]] == to[..j + 1];
      at := at[KeyOf(to[j], bundles) := j + 1];
    }
    assert to[..|to|] == to;
    return Ok(at);
  }

  lemma IndexNone(bundles: seq<Digest>)
    ensures Indexed(map[], [], bundles)
  {}

  lemma SlotFound(at: map<(Digest, nat), nat>, frame: FrameInfo, fromBundles: seq<Digest>, to: seq<FrameInfo>,
                  bundles: seq<Digest>)
    requires Indexed(at, to, bundles) && InBundles(to, bundles) && frame.chunkIndex < |fromBundles|
    ensures var key := KeyOf(frame, fromBundles);
      SlotOk(frame, fromBundles, to, bundles, if key in at then at[key] else 0)
  {
    var key := KeyOf(frame, fromBundles);
    forall j | 0 <= j < |to| ensures Same(frame, fromBundles, to[j], bundles) <==> KeyOf(to[j], bundles) == key {}
    assert key in at ==> IsLast(to, bundles, key, at[key]);
    hide Same;
  }

  /** A slot for every row of `from`, or a failure: exactly when a row names no
      bundle or the indexes do not fit. */
  method FrameMap(from: seq<FrameInfo>, fromBundles: seq<Digest>, to: seq<FrameInfo>, toBundles: seq<Digest>)
    returns (r: Result<seq<nat>>)
    ensures r.Ok? <==> InBundles(from, fromBundles) && InBundles(to, toBundles) && |to| <= U32_MAX
    ensures r.Ok? ==> |r.value| == |from| && forall k :: 0 <= k < |from| ==>
      SlotOk(from[k], fromBundles, to, toBundles, r.value[k])
  {
    hide SlotOk, Indexed, KeyOf;
    var at := IndexFrames(to, toBundles);
    if at.Err? {
      return Err(at.error);
    }
    var slots: seq<nat> := [];
    for k := 0 to |from|
      invariant |slots| == k && InBundles(from[..k], fromBundles)
      invariant forall i :: 0 <= i < k ==> SlotOk(from[i], fromBundles, to, toBundles, slots[i])
    {
      if from[k].chunkIndex >= |fromBundles| {
        return Err(Limit);
      }
      SlotFound(at.value, from[k], fromBundles, to, toBundles);
      var key := KeyOf(from[k], fromBundles);
      slots := slots + [if key in at.value then at.value[key] else 0];
    }
    assert from[..|from|] == from;
    return Ok(slots);
  }

  /** Two maps in a row; no slot stays no slot. */
  function ComposeFrameMaps(first: seq<nat>, second: seq<nat>): Result<seq<nat>> {
    if forall k :: 0 <= k < |first| ==> first[k] <= |second|
    then Ok(seq(|first|, k requires 0 <= k < |first| => if 0 < first[k] <= |second| then second[first[k] - 1] else 0))
    else Err(BadDelta)
  }

  /** What zstd decodes does not depend on the room it is given. */
  ghost predicate OneDecoding(env: Env) {
    forall c, m, n :: env.unzip(c, m).Some? && env.unzip(c, n).Some? ==> env.unzip(c, m) == env.unzip(c, n)
  }

  /** The map sends each frame to one with the same bytes. */
  ghost predicate KeepsBytes(frameMap: seq<nat>, from: seq<Bytes>, to: seq<Bytes>) {
    && |frameMap| == |from|
    && forall k :: 0 <= k < |from| && frameMap[k] > 0 ==> frameMap[k] <= |to| && from[k] == to[frameMap[k] - 1]
  }

  ghost predicate BodiesKnown(env: Env, gs: seq<Group>) {
    forall g :: 0 <= g < |gs| ==> Body(env, gs[g]) in env.known
  }

  lemma SelfDelimiting(env: Env, a: Bytes, b: Bytes)
    requires Lawful(env) && env.oneFrame(a) && env.oneFrame(b)
    ensures a <= b ==> a == b
  {}

  lemma EmptyIsNone(env: Env)
    requires Lawful(env)
    ensures !env.oneFrame([])
  {}

  lemma SameDecoding(env: Env, c: Bytes, m: nat, n: nat)
    requires OneDecoding(env) && env.unzip(c, m).Some? && env.unzip(c, n).Some?
    ensures env.unzip(c, m) == env.unzip(c, n)
  {}

  /** Two whole zstd frames at the start of the same bytes are the same. */
  lemma SamePrefix(env: Env, body: Bytes, at: nat, x: ArchiveFrame, y: ArchiveFrame)
    requires Lawful(env) && OneDecoding(env) && FrameOk(env, x) && FrameOk(env, y)
    requires at + x.compressedLen <= |body| && body[at..at + x.compressedLen] == Comp(env, x)
    requires at + y.compressedLen <= |body| && body[at..at + y.compressedLen] == Comp(env, y)
    requires x.compressedLen > 0 <==> y.compressedLen > 0
    ensures Raw(env, x) == Raw(env, y)
  {
    hide Named, Lawful, OneDecoding;
    var a, b := Comp(env, x), Comp(env, y);
    EmptyIsNone(env);
    if a != [] {
      assert a <= b || b <= a;
      SelfDelimiting(env, a, b);
      SelfDelimiting(env, b, a);
      SameDecoding(env, a, x.rawLen, y.rawLen);
    }
  }

  /** A frame at a known place of its bundle. */
  lemma FrameIn(env: Env, a: Archive, gs: seq<Group>, k: nat) returns (g: nat, j: nat)
    requires GroupedBy(env, a, gs) && k < |a.frames|
    ensures g < |gs| == |a.bundles| && j < |gs[g]| && k == First(gs, g) + j && |a.metadata.frames| == |a.frames|
    ensures a.metadata.frames[k] == GroupInfos(gs[g], g)[j] && a.frames[k] == gs[g][j]
    ensures FrameOk(env, a.frames[k]) && a.bundles[g] == env.hash(Body(env, gs[g]))
    ensures GroupLen(gs[g][..j]) + a.frames[k].compressedLen <= |Body(env, gs[g])|
    ensures Body(env, gs[g])[GroupLen(gs[g][..j])..GroupLen(gs[g][..j]) + a.frames[k].compressedLen] ==
      Comp(env, a.frames[k])
  {
    hide FrameOk, Body, GroupLen, AllInfos, Concat;
    g, j := Locate(gs, k);
    InfoAt(gs, g, j);
    GroupFramesOk(env, gs, g);
    BodyPart(env, gs[g], j);
  }

  /** The frame a slot names is at the same offset of a bundle of the same name. */
  lemma SlotPlace(env: Env, b: Archive, hs: seq<Group>, frame: FrameInfo, names: seq<Digest>, slot: nat, h: nat, j: nat)
    requires GroupedBy(env, b, hs) && slot > 0 && SlotOk(frame, names, b.metadata.frames, b.bundles, slot)
    requires h < |hs| && j < |hs[h]| && slot - 1 == First(hs, h) + j
      && b.metadata.frames[slot - 1] == GroupInfos(hs[h], h)[j]
    ensures h < |b.bundles| && frame.chunkIndex < |names| && names[frame.chunkIndex] == b.bundles[h]
    ensures frame.chunkOffset == GroupLen(hs[h][..j])
  {
    hide GroupLen, Body, AllInfos, Concat, FramesOk, First;
  }

  /** A frame takes up bytes exactly when its bundle does: an empty one is alone. */
  lemma TakesBytes(env: Env, a: Archive, gs: seq<Group>, g: nat, i: nat)
    requires GroupedBy(env, a, gs) && g < |gs| && i < |gs[g]|
    ensures gs[g][i].compressedLen > 0 <==> Body(env, gs[g]) != []
  {
    hide FrameOk, AllInfos, Concat, Body;
    assert BundleOk(env, gs[g], a.bundles[g]);
    GroupFramesOk(env, gs, g);
    BodyLen(env, gs[g]);
    if |gs[g]| == 1 {
      OneLen(gs[g]);
    }
  }

  /** A slot of the frame map names a frame with the same bytes. */
  lemma SlotBytes(env: Env, a: Archive, gs: seq<Group>, b: Archive, hs: seq<Group>, k: nat, slot: nat)
    requires Lawful(env) && OneDecoding(env) && GroupedBy(env, a, gs) && GroupedBy(env, b, hs)
    requires BodiesKnown(env, gs) && BodiesKnown(env, hs) && k < |a.frames| && 0 < slot <= |b.frames|
    requires |a.metadata.frames| == |a.frames| && |b.metadata.frames| == |b.frames|
    requires SlotOk(a.metadata.frames[k], a.bundles, b.metadata.frames, b.bundles, slot)
    ensures Raw(env, a.frames[k]) == Raw(env, b.frames[slot - 1])
  {
    hide *;
    var g, i := FrameIn(env, a, gs, k);
    var h, j := FrameIn(env, b, hs, slot - 1);
    InfoIs(gs[g], g, i);
    InfoIs(hs[h], h, j);
    SlotPlace(env, b, hs, a.metadata.frames[k], a.bundles, slot, h, j);
    Known(env, gs, g);
    Known(env, hs, h);
    SameBody(env, gs[g], hs[h]);
    TakesBytes(env, a, gs, g, i);
    TakesBytes(env, b, hs, h, j);
    SamePrefix(env, Body(env, gs[g]), GroupLen(gs[g][..i]), a.frames[k], b.frames[slot - 1]);
  }

  lemma Known(env: Env, gs: seq<Group>, g: nat)
    requires BodiesKnown(env, gs) && g < |gs|
    ensures Body(env, gs[g]) in env.known
  {}

  lemma InfoIs(g: Group, index: nat, j: nat)
    requires j < |g|
    ensures |GroupInfos(g, index)| == |g| && GroupInfos(g, index)[j].chunkIndex == index
      && GroupInfos(g, index)[j].chunkOffset == GroupLen(g[..j])
  {}

  lemma SameBody(env: Env, g: Group, h: Group)
    requires Lawful(env) && Body(env, g) in env.known && Body(env, h) in env.known
      && env.hash(Body(env, g)) == env.hash(Body(env, h))
    ensures Body(env, g) == Body(env, h)
  {}

  lemma TableCount(env: Env, a: Archive, gs: seq<Group>)
    requires GroupedBy(env, a, gs)
    ensures |a.metadata.frames| == |a.frames|
  {
    AllInfosLen(gs);
  }

  /** The frame map of two archives sends each frame to one with the same bytes. */
  lemma MapKeepsBytes(env: Env, a: Archive, gs: seq<Group>, b: Archive, hs: seq<Group>, frameMap: seq<nat>)
    requires Lawful(env) && OneDecoding(env) && GroupedBy(env, a, gs) && GroupedBy(env, b, hs)
    requires BodiesKnown(env, gs) && BodiesKnown(env, hs)
    requires |frameMap| == |a.metadata.frames|
    requires forall k :: 0 <= k < |frameMap| ==>
      SlotOk(a.metadata.frames[k], a.bundles, b.metadata.frames, b.bundles, frameMap[k])
    ensures KeepsBytes(frameMap, Raws(env, a.frames), Raws(env, b.frames))
  {
    hide *;
    TableCount(env, a, gs);
    TableCount(env, b, hs);
    forall k | 0 <= k < |frameMap| && frameMap[k] > 0
      ensures frameMap[k] <= |b.frames| && Raw(env, a.frames[k]) == Raw(env, b.frames[frameMap[k] - 1])
    {
      SlotInside(a.metadata.frames[k], a.bundles, b.metadata.frames, b.bundles, frameMap[k]);
      SlotBytes(env, a, gs, b, hs, k, frameMap[k]);
    }
    AreKept(env, a.frames, b.frames, frameMap);
  }

  lemma AreKept(env: Env, a: seq<ArchiveFrame>, b: seq<ArchiveFrame>, frameMap: seq<nat>)
    requires |frameMap| == |a|
    requires forall k :: 0 <= k < |frameMap| && frameMap[k] > 0 ==>
      frameMap[k] <= |b| && Raw(env, a[k]) == Raw(env, b[frameMap[k] - 1])
    ensures KeepsBytes(frameMap, Raws(env, a), Raws(env, b))
  {
    hide Raw;
  }

  lemma SlotInside(frame: FrameInfo, fromBundles: seq<Digest>, to: seq<FrameInfo>, toBundles: seq<Digest>, slot: nat)
    requires SlotOk(frame, fromBundles, to, toBundles, slot)
    ensures slot <= |to|
  {}

  function Identity(n: nat): seq<nat> {
    seq(n, k requires 0 <= k < n => k + 1)
  }

  /** So does any composition of such maps, which therefore never fails. */
  lemma ComposeKeepsBytes(first: seq<nat>, second: seq<nat>, a: seq<Bytes>, b: seq<Bytes>, c: seq<Bytes>)
    requires KeepsBytes(first, a, b) && KeepsBytes(second, b, c)
    ensures ComposeFrameMaps(first, second).Ok?
    ensures KeepsBytes(ComposeFrameMaps(first, second).value, a, c)
  {}

  /** A fragment whose frame is moved by such a map reads the same. */
  lemma MovedReadsSame(frameMap: seq<nat>, from: seq<Bytes>, to: seq<Bytes>, was: Fragment, now: Fragment)
    requires KeepsBytes(frameMap, from, to) && SameFragment(frameMap, was, now) && InFrame(was, from)
    ensures InFrame(now, to) && Piece(now, to) == Piece(was, from)
  {
    assert from[was.frameIndex] == to[now.frameIndex];
  }
}
