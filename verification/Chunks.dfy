/** Fetching frames: ranges of bundles and the frames in them
    (rust/src/extract.rs, `compute_chunks` and `slice_archive_frame`). */
module Chunks {
  import opened Clonepack
  import opened Seqs
  import opened Manifests

  /** Consecutive frames of one bundle, fetched in one request. */
  datatype Chunk = Chunk(chunkIndex: nat, startFrame: nat, endFrame: nat, byteStart: nat, byteEnd: nat)

  /** The chunk's bytes are its frames', from the first to the last. */
  ghost predicate ChunkOk(c: Chunk, frames: seq<FrameInfo>) {
    && c.startFrame < c.endFrame <= |frames|
    && c.byteStart == frames[c.startFrame].chunkOffset
    && c.byteEnd == End(frames[c.endFrame - 1])
    && forall k :: c.startFrame <= k < c.endFrame ==> frames[k].chunkIndex == c.chunkIndex
  }

  /** Within the size, or with at most one frame that holds bytes. */
  ghost predicate SizeOk(c: Chunk, frames: seq<FrameInfo>, size: nat) {
    || c.byteEnd <= c.byteStart + size
    || forall i, j :: c.startFrame <= i < j < c.endFrame && j < |frames| ==>
       frames[i].compressedLen == 0 || frames[j].compressedLen == 0
  }

  /** The chunks take up the frames in order. */
  ghost predicate CoverUpTo(chunks: seq<Chunk>, n: nat) {
    && (chunks == [] ==> n == 0)
    && (chunks != [] ==> chunks[0].startFrame == 0 && chunks[|chunks| - 1].endFrame == n)
    && forall i, j :: 0 <= i < j < |chunks| && j == i + 1 ==> chunks[i].endFrame == chunks[j].startFrame
  }

  ghost predicate ChunksOk(chunks: seq<Chunk>, frames: seq<FrameInfo>, size: nat) {
    forall i :: 0 <= i < |chunks| ==> ChunkOk(chunks[i], frames) && SizeOk(chunks[i], frames, size)
  }

  /** The frames of one bundle up to `i`, not yet in a chunk. */
  ghost predicate Pending(frames: seq<FrameInfo>, start: nat, i: nat, byteStart: nat, len: nat, index: nat, size: nat) {
    && start <= i <= |frames| && (i > 0 ==> start < i)
    && (if start < |frames| then byteStart == frames[start].chunkOffset
       && index == frames[start].chunkIndex else byteStart == 0)
    && (if i == start then len == 0 else byteStart + len == End(frames[i - 1]))
    && (forall k :: start <= k < i ==> frames[k].chunkIndex == index)
    && (i > start ==> SizeOk(Chunk(index, start, i, byteStart, byteStart + len), frames, size))
  }

  lemma ChunkCloses(frames: seq<FrameInfo>, start: nat, i: nat, byteStart: nat, len: nat, index: nat, size: nat)
    requires Pending(frames, start, i, byteStart, len, index, size) && start < i
    ensures ChunkOk(Chunk(index, start, i, byteStart, byteStart + len), frames)
    ensures SizeOk(Chunk(index, start, i, byteStart, byteStart + len), frames, size)
  {}

  /** A frame more in the open chunk. */
  lemma PendingNext(frames: seq<FrameInfo>, start: nat, i: nat, byteStart: nat, len: nat, index: nat, size: nat)
    requires Chained(frames) && i < |frames|
    requires start <= i && byteStart == frames[start].chunkOffset
      && index == frames[start].chunkIndex == frames[i].chunkIndex
    requires if i == start then len == 0 else Pending(frames, start, i, byteStart, len, index, size)
    requires !(len > 0 && len + frames[i].compressedLen > size)
    ensures Pending(frames, start, i + 1, byteStart, len + frames[i].compressedLen, index, size)
  {
    assert i > start ==> Follows(frames[i - 1], frames[i]);
    if len == 0 && i > start {
      ZeroLens(frames, start, i, index, byteStart);
    }
  }

  /** Frames that together take no bytes take none each. */
  lemma {:induction false} ZeroLens(frames: seq<FrameInfo>, start: nat, i: nat, index: nat, byteStart: nat)
    requires Chained(frames) && start < i <= |frames|
    requires forall k :: start <= k < i ==> frames[k].chunkIndex == index
    requires frames[start].chunkOffset == byteStart
    ensures byteStart <= frames[i - 1].chunkOffset
    ensures End(frames[i - 1]) == byteStart ==> forall k :: start <= k < i ==> frames[k].compressedLen == 0
    decreases i
  {
    if start < i - 1 {
      assert Follows(frames[i - 2], frames[i - 1]);
      ZeroLens(frames, start, i - 1, index, byteStart);
    }
  }

  /** Requests that cover the frames in order. Each lies in one bundle and asks for
      `size` bytes at most, or has a single frame that holds any; with no limit to
      speak of, request `i` is all of bundle `i`. */
  method ComputeChunks(frames: seq<FrameInfo>, size: nat) returns (chunks: seq<Chunk>)
    requires Chained(frames)
    ensures CoverUpTo(chunks, |frames|) && ChunksOk(chunks, frames, size)
    ensures size >= U64_MAX ==> forall i :: 0 <= i < |chunks| ==> chunks[i].chunkIndex == i
  {
    hide SizeOk, ChunkOk;
    chunks := [];
    var start: nat, byteStart: nat, len: nat := 0, 0, 0;
    var index: nat := if |frames| == 0 then 0 else frames[0].chunkIndex;
    for i := 0 to |frames|
      invariant i == 0 ==> chunks == [] && start == 0 && byteStart == 0 && len == 0
      invariant i == 0 && frames != [] ==> index == frames[0].chunkIndex
      invariant i > 0 ==> Pending(frames, start, i, byteStart, len, index, size)
      invariant CoverUpTo(chunks, start) && ChunksOk(chunks, frames, size)
      invariant size >= U64_MAX ==> index == |chunks| && forall n :: 0 <= n < |chunks| ==> chunks[n].chunkIndex == n
    {
      var frame := frames[i];
      assert i > 0 ==> Follows(frames[i - 1], frame);
      if frame.chunkIndex != index || (len > 0 && len + frame.compressedLen > size) {
        ChunkCloses(frames, start, i, byteStart, len, index, size);
        chunks := chunks + [Chunk(index, start, i, byteStart, byteStart + len)];
        start, byteStart, len, index := i, frame.chunkOffset, 0, frame.chunkIndex;
      }
      PendingNext(frames, start, i, byteStart, len, index, size);
      len := len + frame.compressedLen;
    }
    if |frames| != 0 {
      ChunkCloses(frames, start, |frames|, byteStart, len, index, size);
      chunks := chunks + [Chunk(index, start, |frames|, byteStart, byteStart + len)];
    }
  }

  /** The compressed bytes of a frame within a fetched chunk. */
  function SliceFrame(bytes: Bytes, chunk: Chunk, frame: FrameInfo): Result<Bytes> {
    if frame.chunkOffset < chunk.byteStart then Err(BadGeometry) else
      var offset := frame.chunkOffset - chunk.byteStart;
      if offset + frame.compressedLen > |bytes| then Err(BadGeometry)
        else Ok(bytes[offset..offset + frame.compressedLen])
  }

  /** Frames of a chunk lie between its ends. */
  lemma {:induction false} FrameBetween(frames: seq<FrameInfo>, c: Chunk, k: nat)
    requires Chained(frames) && ChunkOk(c, frames) && c.startFrame <= k < c.endFrame
    ensures c.byteStart <= frames[k].chunkOffset && End(frames[k]) <= c.byteEnd
  {
    OffsetsGrow(frames, c, c.startFrame, k);
    OffsetsGrow(frames, c, k, c.endFrame - 1);
  }

  lemma {:induction false} OffsetsGrow(frames: seq<FrameInfo>, c: Chunk, i: nat, j: nat)
    requires Chained(frames) && ChunkOk(c, frames) && c.startFrame <= i <= j < c.endFrame
    ensures frames[i].chunkOffset <= frames[j].chunkOffset && End(frames[i]) <= End(frames[j])
    decreases j - i
  {
    if i < j {
      OffsetsGrow(frames, c, i, j - 1);
      assert Follows(frames[j - 1], frames[j]);
    }
  }

  /** Slicing a fetched range of a bundle gives the frame's own bytes. */
  lemma SliceExact(frames: seq<FrameInfo>, c: Chunk, k: nat, body: Bytes)
    requires Chained(frames) && ChunkOk(c, frames) && c.startFrame <= k < c.endFrame
    requires c.byteEnd <= |body|
    ensures c.byteStart <= c.byteEnd && End(frames[k]) <= |body|
    ensures SliceFrame(body[c.byteStart..c.byteEnd], c, frames[k]) == Ok(body[frames[k].chunkOffset..End(frames[k])])
  {
    FrameBetween(frames, c, k);
    SliceSlice(body, c.byteStart, c.byteEnd, frames[k].chunkOffset - c.byteStart, End(frames[k]) - c.byteStart);
  }
}
