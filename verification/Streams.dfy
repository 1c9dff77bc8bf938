/** The whole worktree cut into frames (rust/src/archive.rs, `stream_frames`). */
module Streams {
  import opened Clonepack
  import opened Seqs
  import opened Fragments
  import opened Layouts
  import opened Grouping
  import opened Archives
  import opened BaseIndexes
  import opened Bundlers

  /** Every slice of the stream and its compressed form is among the strings
      whose hashes the builds compare. */
  ghost predicate StreamKnown(env: Env, s: Bytes) {
    forall i: nat, j: nat :: i <= j <= |s| ==> s[i..j] in env.known && ZipFrame(env, s[i..j]) in env.known
  }

  /** The frames so far hold the stream's bytes up to `pos`, end to end. */
  ghost predicate Emitted(env: Env, stream: Bytes, bounds: Bounds, fs: seq<ArchiveFrame>, pos: nat) {
    && |bounds| == |fs|
    && (forall k :: 0 <= k < |bounds| ==>
       bounds[k].lo <= bounds[k].hi <= |stream| && Raw(env, fs[k]) == stream[bounds[k].lo..bounds[k].hi])
    && (forall j, k :: 0 <= j < k < |bounds| && k == j + 1 ==> bounds[j].hi == bounds[k].lo)
    && (if bounds == [] then pos == 0 else bounds[0].lo == 0 && bounds[|bounds| - 1].hi == pos)
  }

  lemma EmittedNext(env: Env, stream: Bytes, bounds: Bounds, fs: seq<ArchiveFrame>, lo: nat, hi: nat, f: ArchiveFrame)
    requires Emitted(env, stream, bounds, fs, lo)
    requires lo <= hi <= |stream| && Raw(env, f) == stream[lo..hi]
    ensures Emitted(env, stream, bounds + [Range(lo, hi)], fs + [f], hi)
  {}

  lemma EmittedAll(env: Env, stream: Bytes, bounds: Bounds, fs: seq<ArchiveFrame>)
    requires Emitted(env, stream, bounds, fs, |stream|)
    requires bounds != []
    ensures FramesOf(Raws(env, fs), bounds, stream)
    ensures Tiles(bounds, |stream|)
  {}

  /** The bundler has taken these frames, in order. */
  ghost predicate Received(b: Bundler, fs: seq<ArchiveFrame>)
    reads b
  {
    b.Valid() && b.cuts == PushAll(NoCuts, fs, b.min, b.max)
  }

  /** Record a frame's range and hand the frame to the bundler. */
  method Emit(b: Bundler, frame: BuiltFrame, bounds: Bounds, lo: nat, hi: nat, ghost stream: Bytes,
              ghost fs: seq<ArchiveFrame>)
    returns (r: Result<Bounds>)
    requires Received(b, fs) && Genuine(b.env, b.base, frame)
    requires Emitted(b.env, stream, bounds, fs, lo)
    requires lo <= hi <= |stream| && Raw(b.env, frame.frame) == stream[lo..hi]
    modifies b
    ensures r.Ok? ==> r.value == bounds + [Range(lo, hi)]
    ensures r.Ok? ==> Received(b, fs + [frame.frame]) && Emitted(b.env, stream, r.value, fs + [frame.frame], hi)
    ensures r.Ok? ==> b.made == old(b.made) + if frame.bytes.Some? then 1 else 0
    ensures r.Err? ==> r.error in {Limit, Unreadable}
  {
    hide Emitted, Genuine, Raw, Push, b.Valid;
    EmittedNext(b.env, stream, bounds, fs, lo, hi, frame.frame);
    PushNext(NoCuts, fs, frame.frame, b.min, b.max);
    var pushed := b.Push(frame);
    if pushed.Err? {
      return Err(pushed.error);
    }
    return Ok(bounds + [Range(lo, hi)]);
  }

  /** Frames for the whole stream, end to end, given to the bundler as they come. A
      stream of no bytes still gets a frame when there are files. */
  method StreamFrames(env: Env, l: Layout, b: Bundler) returns (r: Result<Bounds>, ghost fs: seq<ArchiveFrame>)
    requires ValidLayout(env, l) && StreamKnown(env, Stream(env, l.blobs))
    requires b.env == env && Received(b, []) && b.made == 0
    modifies b
    ensures r.Ok? ==> Received(b, fs) && Emitted(env, Stream(env, l.blobs), r.value, fs, l.total)
    ensures r.Ok? ==> (r.value == [] <==> l.blobs == [])
    ensures r.Ok? && l.total > 0 ==> forall k :: 0 <= k < |r.value| ==> r.value[k].lo < r.value[k].hi
    ensures r.Ok? && l.total == 0 ==> EmptyTreeFrame(b, l, fs)
    ensures r.Err? ==> r.error in {Limit, Unreadable}
  {
    hide *;
    var stream := Stream(env, l.blobs);
    TotalIsLength(env, l);
    var lens := env.cut(stream);
    CutLaw(b, [], stream);
    NoLens(lens);
    fs := [];
    var bounds: Bounds, pos: nat := [], 0;
    EmittedNone(env, stream);
    for i := 0 to |lens|
      invariant pos == Sum(lens[..i]) <= |stream|
      invariant Received(b, fs) && Emitted(env, stream, bounds, fs, pos)
      invariant |bounds| == |fs| == i && (i == 0 ==> b.made == 0)
      invariant forall k :: 0 <= k < i ==> bounds[k].lo < bounds[k].hi
    {
      assert lens[i] > 0;
      SumNext(lens, i);
      SumMonotone(lens, i + 1, |lens|);
      var end := pos + lens[i];
      FrameReady(b, fs, stream, pos, end);
      var frame := BuildFrame(env, stream[pos..end], b.base);
      r := Emit(b, frame, bounds, pos, end, stream, fs);
      if r.Err? {
        return;
      }
      bounds, fs, pos := r.value, fs + [frame.frame], end;
    }
    assert lens[..|lens|] == lens;
    var streamed := if |bounds| == 0 then 0 else bounds[|bounds| - 1].hi;
    EmittedEnd(env, stream, bounds, fs, pos);
    if streamed != l.total {
      return Err(StreamLength), fs;
    }
    if |bounds| == 0 && |l.blobs| != 0 {
      FrameReady(b, fs, stream, 0, 0);
      assert stream[0..0] == [];
      var frame := BuildFrame(env, [], b.base);
      r := Emit(b, frame, bounds, 0, 0, stream, fs);
      fs := fs + [frame.frame];
      if r.Ok? {
        EmptyFrameOf(b, l, fs);
      }
      return;
    }
    if l.total == 0 {
      NoFrameOf(b, l, fs);
    }
    r := Ok(bounds);
  }

  /** A tree of only empty files has one empty frame, the base's when it has one. */
  ghost predicate EmptyTreeFrame(b: Bundler, l: Layout, fs: seq<ArchiveFrame>)
    reads b
  {
    var empty := b.env.hash([]);
    && |fs| == (if l.blobs == [] then 0 else 1)
    && (l.blobs == [] ==> b.made == 0)
    && (b.base.Some? && empty in b.base.value.byRaw && fs != [] && b.base.value.byRaw[empty] < |b.base.value.frames| ==>
          var f := b.base.value.frames[b.base.value.byRaw[empty]];
          b.made == 0 && fs[0] == ArchiveFrame(empty, f.chunkHash, f.compressedLen, 0))
  }

  lemma EmptyFrameBuilt(env: Env, base: Option<BaseIndex>)
    requires base.Some? ==> ByRawOk(base.value.byRaw, base.value.frames)
    ensures var b := BuildFrame(env, [], base);
      base.Some? && env.hash([]) in base.value.byRaw ==>
        var f := base.value.frames[base.value.byRaw[env.hash([])]];
        b.bytes.None? && b.frame == ArchiveFrame(env.hash([]), f.chunkHash, f.compressedLen, 0)
  {}

  lemma EmptyFrameOf(b: Bundler, l: Layout, fs: seq<ArchiveFrame>)
    requires l.blobs != [] && |fs| == 1
    requires b.base.Some? ==> ByRawOk(b.base.value.byRaw, b.base.value.frames)
    requires fs[0] == BuildFrame(b.env, [], b.base).frame
    requires b.made == if BuildFrame(b.env, [], b.base).bytes.Some? then 1 else 0
    ensures EmptyTreeFrame(b, l, fs)
  {
    EmptyFrameBuilt(b.env, b.base);
  }

  lemma NoFrameOf(b: Bundler, l: Layout, fs: seq<ArchiveFrame>)
    requires l.blobs == [] && fs == [] && b.made == 0
    ensures EmptyTreeFrame(b, l, fs)
  {}

  lemma NoLens(lens: seq<nat>)
    ensures Sum(lens[..0]) == 0
  {}

  lemma TotalIsLength(env: Env, l: Layout)
    requires ValidLayout(env, l)
    ensures l.total == |Stream(env, l.blobs)|
    ensures l.blobs == [] ==> l.total == 0
  {
    ConcatLength(Contents(env, l.blobs));
  }

  lemma CutLaw(b: Bundler, fs: seq<ArchiveFrame>, s: Bytes)
    requires Received(b, fs)
    ensures Sum(b.env.cut(s)) == |s|
    ensures forall i :: 0 <= i < |b.env.cut(s)| ==> b.env.cut(s)[i] > 0
    ensures s == [] ==> b.env.cut(s) == []
  {
    if s == [] && b.env.cut(s) != [] {
      assert b.env.cut(s)[0] > 0;
    }
  }

  lemma EmittedNone(env: Env, stream: Bytes)
    ensures Emitted(env, stream, [], [], 0)
  {}

  lemma EmittedEnd(env: Env, stream: Bytes, bounds: Bounds, fs: seq<ArchiveFrame>, pos: nat)
    requires Emitted(env, stream, bounds, fs, pos)
    ensures pos == if |bounds| == 0 then 0 else bounds[|bounds| - 1].hi
  {}

  /** A frame built from a slice of the stream is ready to emit. */
  lemma FrameReady(b: Bundler, fs: seq<ArchiveFrame>, stream: Bytes, lo: nat, hi: nat)
    requires Received(b, fs) && StreamKnown(b.env, stream) && lo <= hi <= |stream|
    ensures b.base.Some? ==> ByRawOk(b.base.value.byRaw, b.base.value.frames)
    ensures Genuine(b.env, b.base, BuildFrame(b.env, stream[lo..hi], b.base))
    ensures Raw(b.env, BuildFrame(b.env, stream[lo..hi], b.base).frame) == stream[lo..hi]
  {
    BuildFrameGenuine(b.env, stream[lo..hi], b.base);
  }
}
