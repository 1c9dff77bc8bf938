/** The geometry of a files table (rust/src/manifest.rs, `validate_geometry` and
    `fragments_by_frame`; rust/src/clonepack.rs, `archive_chunk_lengths`). */
module Manifests {
  import opened Clonepack

  predicate AllowedMode(mode: nat) {
    mode == 0x81a4 || mode == 0x81ed || mode == 0xa000
  }

  predicate FragmentInside(f: Fragment, frames: seq<FrameInfo>) {
    f.frameIndex < |frames| && f.frameOffset + f.rawLen <= frames[f.frameIndex].rawLen
  }

  /** A file with an allowed mode, a safe path, a blob id, and fragments that lie
      in their frames; only a table without frames may leave them out. */
  ghost predicate FileOk(f: FileEntry, frames: seq<FrameInfo>, safe: Bytes -> bool) {
    && AllowedMode(f.mode) && f.path != [] && safe(f.path) && |f.blob| == 20
    && (frames != [] ==> f.fragments != [])
    && forall i :: 0 <= i < |f.fragments| ==> FragmentInside(f.fragments[i], frames)
  }

  function Paths(m: Metadata): seq<Bytes> {
    seq(|m.files|, i requires 0 <= i < |m.files| => m.files[i].path) + m.gitlinks
  }

  ghost predicate Distinct(ps: seq<Bytes>) {
    forall i, j :: 0 <= i < j < |ps| ==> ps[i] != ps[j]
  }

  function End(f: FrameInfo): nat { f.chunkOffset + f.compressedLen }

  /** The next frame is right after in the same bundle, or starts the next one. */
  predicate Follows(a: FrameInfo, b: FrameInfo) {
    || (b.chunkIndex == a.chunkIndex && b.chunkOffset == End(a))
    || (b.chunkIndex == a.chunkIndex + 1 && b.chunkOffset == 0)
  }

  /** Frames are contiguous in bundle order from the start of bundle 0. */
  ghost predicate Chained(frames: seq<FrameInfo>) {
    && (frames != [] ==> frames[0].chunkIndex == 0 && frames[0].chunkOffset == 0)
    && (forall j, k :: 0 <= j < k < |frames| && k == j + 1 ==> Follows(frames[j], frames[k]))
    && (forall k :: 0 <= k < |frames| ==> End(frames[k]) <= U64_MAX)
  }

  ghost predicate GeometryOk(m: Metadata, safe: Bytes -> bool) {
    && (forall i :: 0 <= i < |m.files| ==> FileOk(m.files[i], m.frames, safe))
    && (forall i :: 0 <= i < |m.gitlinks| ==> m.gitlinks[i] != [] && safe(m.gitlinks[i]))
    && Distinct(Paths(m))
    && Chained(m.frames)
  }

  method CheckFile(f: FileEntry, frames: seq<FrameInfo>, safe: Bytes -> bool) returns (ok: bool)
    ensures ok <==> FileOk(f, frames, safe)
  {
    if !AllowedMode(f.mode) || f.path == [] || !safe(f.path) || |f.blob| != 20 {
      return false;
    }
    if |f.fragments| == 0 && |frames| != 0 {
      return false;
    }
    for i := 0 to |f.fragments|
      invariant forall j :: 0 <= j < i ==> FragmentInside(f.fragments[j], frames)
    {
      if !FragmentInside(f.fragments[i], frames) {
        return false;
      }
    }
    return true;
  }

  /** Add the paths one by one to those seen, until one is there already. */
  method CheckPaths(ps: seq<Bytes>) returns (ok: bool)
    ensures ok <==> Distinct(ps)
  {
    var seen: set<Bytes> := {};
    for i := 0 to |ps|
      invariant seen == set j | 0 <= j < i :: ps[j]
      invariant Distinct(ps[..i])
    {
      if ps[i] in seen {
        return false;
      }
      seen := seen + {ps[i]};
    }
    assert ps[..|ps|] == ps;
    return true;
  }

  method CheckFrames(frames: seq<FrameInfo>) returns (ok: bool)
    ensures ok <==> Chained(frames)
  {
    var previous: Option<FrameInfo> := None;
    for k := 0 to |frames|
      invariant previous == if k == 0 then None else Some(frames[k - 1])
      invariant Chained(frames[..k])
    {
      var f := frames[k];
      if End(f) > U64_MAX {
        return false;
      }
      match previous {
        case None =>
          if f.chunkIndex != 0 || f.chunkOffset != 0 {
            return false;
          }
        case Some(p) =>
          if f.chunkIndex < p.chunkIndex {
            return false;
          } else if f.chunkIndex == p.chunkIndex {
            if f.chunkOffset != End(p) {
              return false;
            }
          } else if f.chunkIndex != p.chunkIndex + 1 || f.chunkOffset != 0 {
            return false;
          }
      }
      previous := Some(f);
    }
    assert frames[..|frames|] == frames;
    return true;
  }

  /** Accepts a table exactly when its geometry is right. The source interleaves
      the path check with the file checks; the verdict is the same. */
  method ValidateGeometry(m: Metadata, safe: Bytes -> bool) returns (r: Result<()>)
    ensures r == if GeometryOk(m, safe) then Ok(()) else Err(BadGeometry)
  {
    hide FileOk, Distinct, Chained;
    for i := 0 to |m.files|
      invariant forall j :: 0 <= j < i ==> FileOk(m.files[j], m.frames, safe)
    {
      var ok := CheckFile(m.files[i], m.frames, safe);
      if !ok {
        return Err(BadGeometry);
      }
    }
    for i := 0 to |m.gitlinks|
      invariant forall j :: 0 <= j < i ==> m.gitlinks[j] != [] && safe(m.gitlinks[j])
    {
      if m.gitlinks[i] == [] || !safe(m.gitlinks[i]) {
        return Err(BadGeometry);
      }
    }
    var distinct := CheckPaths(Paths(m));
    if !distinct {
      return Err(BadGeometry);
    }
    var chained := CheckFrames(m.frames);
    return if chained then Ok(()) else Err(BadGeometry);
  }

  /** The end of bundle `g`: where its last frame ends. */
  ghost function LengthOf(frames: seq<FrameInfo>, g: nat): nat {
    if frames == [] then 0 else
      var f := frames[|frames| - 1];
      if f.chunkIndex == g then End(f) else LengthOf(frames[..|frames| - 1], g)
  }

  /** The compressed length of each bundle of a valid table: where its last frame
      ends, one length per bundle. */
  method ArchiveChunkLengths(m: Metadata, safe: Bytes -> bool) returns (r: Result<seq<nat>>)
    ensures r.Ok? <==> GeometryOk(m, safe)
    ensures r.Ok? ==> |r.value| == if m.frames == [] then 0 else m.frames[|m.frames| - 1].chunkIndex + 1
    ensures r.Ok? ==> forall g :: 0 <= g < |r.value| ==> r.value[g] == LengthOf(m.frames, g)
  {
    hide GeometryOk, Chained, LengthOf;
    var valid := ValidateGeometry(m, safe);
    if valid.Err? {
      return Err(valid.error);
    }
    var frames := m.frames;
    ValidChain(m, safe);
    NoLengths(frames);
    var lengths: seq<nat> := [];
    for k := 0 to |frames|
      invariant |lengths| == if k == 0 then 0 else frames[k - 1].chunkIndex + 1
      invariant forall g :: 0 <= g < |lengths| ==> lengths[g] == LengthOf(frames[..k], g)
      invariant k > 0 ==> lengths[frames[k - 1].chunkIndex] == End(frames[k - 1])
    {
      var f := frames[k];
      var idx, end := f.chunkIndex, End(f);
      ChainAt(frames, k);
      LengthNext(frames, k);
      if idx == |lengths| {
        NoLength(frames[..k], idx);
        lengths := lengths + [0];
      } else if idx > |lengths| {
        return Err(BadGeometry);
      }
      if end > lengths[idx] {
        lengths := lengths[idx := end];
      }
    }
    assert frames[..|frames|] == frames;
    return Ok(lengths);
  }

  lemma ValidChain(m: Metadata, safe: Bytes -> bool)
    requires GeometryOk(m, safe)
    ensures Chained(m.frames)
  {}

  lemma ChainAt(frames: seq<FrameInfo>, k: nat)
    requires Chained(frames) && k < |frames|
    ensures Chained(frames[..k])
    ensures k == 0 ==> frames[k].chunkIndex == 0 && frames[k].chunkOffset == 0
    ensures k > 0 ==> Follows(frames[k - 1], frames[k])
  {}

  lemma LengthNext(frames: seq<FrameInfo>, k: nat)
    requires k < |frames|
    ensures forall g: nat ::
      LengthOf(frames[..k + 1], g) == if frames[k].chunkIndex == g then End(frames[k]) else LengthOf(frames[..k], g)
  {
    var front, next := frames[..k], frames[..k + 1];
    assert next[..k] == front && next[|next| - 1] == frames[k];
    forall g: nat
      ensures LengthOf(next, g) == if frames[k].chunkIndex == g then End(frames[k]) else LengthOf(front, g)
    {}
  }

  lemma NoLengths(frames: seq<FrameInfo>)
    ensures forall g: nat :: LengthOf(frames[..0], g) == 0
  {}

  lemma {:induction false} NoLength(frames: seq<FrameInfo>, g: nat)
    requires Chained(frames) && (frames != [] ==> frames[|frames| - 1].chunkIndex < g)
    ensures LengthOf(frames, g) == 0
  {
    if |frames| > 1 {
      var front := frames[..|frames| - 1];
      assert Follows(front[|front| - 1], frames[|frames| - 1]);
      NoLength(front, g);
    }
  }
}
