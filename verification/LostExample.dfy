/** Tables of `n` files and two more for which the next compaction is wrong, from
    the stored base on. Every archive is one that a whole build gives. */
module LostExamples {
  import opened Clonepack
  import opened Seqs
  import opened Fragments
  import opened Layouts
  import opened Grouping
  import opened Archives
  import opened Manifests
  import opened BaseIndexes
  import opened Bundlers
  import opened Streams
  import opened Builds
  import opened Checkouts
  import opened Hypotheses
  import opened Listings
  import opened Deltas
  import opened DeltaStreams
  import opened FrameMaps
  import opened FilesResults
  import opened LostOrders
  import opened LostStores

  const MODE: nat := 0x81a4
  const TARGET: nat := 2

  type Count = n: nat | 0 < n <= 28 witness 1

  /** The last files' bytes: other than the first files', and all different. */
  predicate IsRest(rest: Bytes) {
    && |rest| <= 2 && (forall j :: 0 <= j < |rest| ==> rest[j] >= 100)
    && forall i, j :: 0 <= i < j < |rest| ==> rest[i] != rest[j]
  }

  type Rest = rest: Bytes | IsRest(rest)

  /** With the second last file, and without. */
  const BOTH: Rest := [100, 101]
  const LAST: Rest := [101]

  /** A file of one byte. */
  function One(i: Byte): TreeFile { TreeFile([i], seq(20, _ => i), MODE) }

  function Entry(i: Byte, frame: nat, offset: nat): FileEntry {
    FileEntry([i], MODE, seq(20, _ => i), [Fragment(frame, offset, 1)])
  }

  function Filler(n: Count): Bytes { seq(n, i requires 0 <= i < n => 10 + i) }

  function Singles(xs: Bytes): seq<TreeFile> { seq(|xs|, i requires 0 <= i < |xs| => One(xs[i])) }

  function Tree(n: Count, rest: Rest): seq<TreeFile> { Singles(Filler(n) + rest) }

  function Ones(rest: Bytes): seq<Bytes> { seq(|rest|, j requires 0 <= j < |rest| => [rest[j]]) }

  /** The frames' bytes: the first files share a frame and the others have their own. */
  function Parts(n: Count, rest: Bytes): seq<Bytes> { [Filler(n)] + Ones(rest) }

  function Frame(x: Bytes): ArchiveFrame { ArchiveFrame(Pad(x), Pad(Encode(x)), |Encode(x)|, |x|) }

  function Frames(n: Count, rest: Rest): seq<ArchiveFrame> {
    seq(|Parts(n, rest)|, k requires 0 <= k < |Parts(n, rest)| => Frame(Parts(n, rest)[k]))
  }

  function Files(n: Count, rest: Rest): seq<FileEntry> {
    seq(n + |rest|, i requires 0 <= i < n + |rest| =>
      if i < n then Entry(10 + i, 0, i) else Entry(rest[i - n], 1 + i - n, 0))
  }

  /** A bundle for each frame. */
  function Alone(fs: seq<ArchiveFrame>): seq<Group> { seq(|fs|, k requires 0 <= k < |fs| => [fs[k]]) }

  function Bundles(n: Count, rest: Rest): seq<Digest> {
    seq(|Parts(n, rest)|, k requires 0 <= k < |Parts(n, rest)| => Pad(Encode(Parts(n, rest)[k])))
  }

  function Made(n: Count, rest: Rest): Archive {
    Archive(Frames(n, rest), Metadata(AllInfos(Alone(Frames(n, rest))), Files(n, rest), []), Bundles(n, rest))
  }

  lemma SampleIs(x: Bytes, n: nat)
    ensures Sample().hash(x) == Pad(x) && Sample().cut(x) == Cut(x) && Sample().unzip(x, n) == Decode(x)
    ensures Sample().blob(x) == Blob(x) && Sample().blobId(x) == BlobId(x)
    ensures (Sample().oneFrame(x) <==> IsCode(x)) && (x in Sample().known <==> |x| < DIGEST_WIDTH)
    ensures Lawful(Sample()) && OneDecoding(Sample())
  {
    HypothesesHold();
    hide Pad, Encode, Decode, IsCode, Lawful, OneDecoding, StreamKnown, Cut;
  }

  lemma NamedIs(x: Bytes)
    requires |x| < DIGEST_WIDTH
    ensures Named(Sample(), Pad(x)) == x
  {
    hide Sample, Pad, Lawful, OneDecoding, Named;
    SampleIs(x, 0);
    NamedKnown(Sample(), x);
  }

  lemma FrameIsOk(x: Bytes)
    requires 0 < |x| <= 28
    ensures FrameOk(Sample(), Frame(x)) && Raw(Sample(), Frame(x)) == x && Comp(Sample(), Frame(x)) == Encode(x)
    ensures 0 < Frame(x).compressedLen == 2 * |x| + 1 < DIGEST_WIDTH && Frame(x).rawLen == |x|
  {
    hide Sample, Pad, Encode, Decode, IsCode, Named, Lawful, OneDecoding;
    EncodeLength(x);
    DecodeEncode(x);
    NamedIs(x);
    NamedIs(Encode(x));
    SampleIs(x, |x|);
    SampleIs(Encode(x), |x|);
  }

  /** The digest of so short a string ends in a zero. */
  lemma FrameCuts(x: Bytes)
    requires 0 < |x| <= 28
    ensures CutsAfter(Frame(x).chunkHash)
  {
    EncodeLength(x);
    hide Encode;
  }

  lemma PartsFit(n: Count, rest: Rest)
    ensures |Parts(n, rest)| == 1 + |rest| && forall k :: 0 <= k < |Parts(n, rest)| ==> 0 < |Parts(n, rest)[k]| <= 28
  {}

  lemma FrameAt(n: Count, rest: Rest, k: nat)
    requires k <= |rest|
    ensures |Frames(n, rest)| == |Bundles(n, rest)| == |Parts(n, rest)| == 1 + |rest|
    ensures Frames(n, rest)[k] == Frame(Parts(n, rest)[k]) && Bundles(n, rest)[k] == Pad(Encode(Parts(n, rest)[k]))
    ensures 0 < |Parts(n, rest)[k]| <= 28
  {
    hide Frame, Pad, Encode;
    PartsFit(n, rest);
  }

  lemma FramesAre(n: Count, rest: Rest)
    ensures FramesOk(Sample(), Frames(n, rest)) && Raws(Sample(), Frames(n, rest)) == Parts(n, rest)
    ensures |Frames(n, rest)| == 1 + |rest|
    ensures forall k :: 0 <= k < |Frames(n, rest)| ==>
      0 < Frames(n, rest)[k].compressedLen && 0 < Frames(n, rest)[k].rawLen && CutsAfter(Frames(n, rest)[k].chunkHash)
  {
    hide FrameOk, Raw, Comp, Frame, Frames, Parts, Sample, CutsAfter;
    var fs, parts := Frames(n, rest), Parts(n, rest);
    FrameAt(n, rest, 0);
    forall k | 0 <= k < |fs|
      ensures FrameOk(Sample(), fs[k]) && Raw(Sample(), fs[k]) == parts[k]
      ensures 0 < fs[k].compressedLen && 0 < fs[k].rawLen && CutsAfter(fs[k].chunkHash)
    {
      FrameAt(n, rest, k);
      FrameIsOk(parts[k]);
      FrameCuts(parts[k]);
    }
  }

  lemma AloneSnoc(fs: seq<ArchiveFrame>, f: ArchiveFrame)
    ensures Alone(fs + [f]) == Alone(fs) + [[f]]
  {}

  lemma {:induction false} AloneConcat(fs: seq<ArchiveFrame>)
    ensures Concat(Alone(fs)) == fs
  {
    if fs != [] {
      var n := |fs| - 1;
      AloneConcat(fs[..n]);
      assert fs == fs[..n] + [fs[n]];
      AloneSnoc(fs[..n], fs[n]);
      ConcatSnoc(Alone(fs[..n]), [fs[n]]);
      hide Concat, Alone;
    }
  }

  /** Every frame may end its bundle and is long enough to. */
  lemma {:induction false} AloneCut(fs: seq<ArchiveFrame>, min: nat, max: nat)
    requires min <= 1 && forall k :: 0 <= k < |fs| ==> 0 < fs[k].compressedLen && CutsAfter(fs[k].chunkHash)
    ensures PushAll(NoCuts, fs, min, max) == Cuts(Alone(fs), [])
  {
    if fs != [] {
      var n := |fs| - 1;
      AloneCut(fs[..n], min, max);
      assert fs == fs[..n] + [fs[n]];
      AloneSnoc(fs[..n], fs[n]);
      assert [] + [fs[n]] == [fs[n]];
      hide Alone;
    }
  }

  /** They are the bundles of a build with this target. */
  lemma AloneBundled(n: Count, rest: Rest)
    ensures Bundled(Frames(n, rest), MinLen(TARGET), MaxLen(TARGET)) == Alone(Frames(n, rest))
  {
    hide Frames, Alone, CutsAfter, FramesOk, Raws, PushAll;
    FramesAre(n, rest);
    AloneCut(Frames(n, rest), MinLen(TARGET), MaxLen(TARGET));
  }

  lemma OneFrame(f: ArchiveFrame)
    ensures Body(Sample(), [f]) == Comp(Sample(), f) && GroupLen([f]) == f.compressedLen
  {
    var g: Group := [f];
    assert g[..0] == [] && GroupLen(g[..0]) == 0;
    hide Comp, Sample;
    assert Comps(Sample(), g) == [Comp(Sample(), f)];
    OnePart(Comp(Sample(), f));
  }

  lemma OnePart(x: Bytes)
    ensures Concat([x]) == x
  {
    assert [x][1..] == [];
  }

  lemma BundleIsOk(n: Count, rest: Rest, k: nat)
    requires k <= |rest|
    ensures |Frames(n, rest)| == |Bundles(n, rest)| == 1 + |rest|
    ensures BundleOk(Sample(), [Frames(n, rest)[k]], Bundles(n, rest)[k])
    ensures Body(Sample(), [Frames(n, rest)[k]]) in Sample().known
  {
    hide Sample, Frames, Bundles, Parts, Pad, Encode, Frame, Body, GroupLen, Comp, FrameOk, Lawful, OneDecoding, Raw;
    FrameAt(n, rest, k);
    var x := Parts(n, rest)[k];
    FrameIsOk(x);
    OneFrame(Frame(x));
    EncodeLength(x);
    SampleIs(Encode(x), 0);
  }

  lemma IsGrouped(n: Count, rest: Rest)
    ensures GroupedBy(Sample(), Made(n, rest), Alone(Frames(n, rest)))
    ensures BodiesKnown(Sample(), Alone(Frames(n, rest)))
  {
    hide Frames, Bundles, FramesOk, Concat, AllInfos, BundleOk, Body, Sample, Raws;
    var fs, gs := Frames(n, rest), Alone(Frames(n, rest));
    FramesAre(n, rest);
    AloneConcat(fs);
    FrameAt(n, rest, 0);
    forall g | 0 <= g < |gs|
      ensures BundleOk(Sample(), gs[g], Bundles(n, rest)[g]) && Body(Sample(), gs[g]) in Sample().known
    {
      BundleIsOk(n, rest, g);
    }
  }

  lemma EntryHolds(i: Byte, frame: nat, offset: nat, raws: seq<Bytes>)
    requires frame < |raws| && offset < |raws[frame]| && raws[frame][offset] == i
    ensures FileHolds(Sample(), Entry(i, frame, offset), One(i), raws)
    ensures Length(Entry(i, frame, offset).fragments) == 1
  {
    var frags := Entry(i, frame, offset).fragments;
    assert frags[1..] == [];
    assert Piece(frags[0], raws) == [i];
    assert Read(frags[1..], raws) == [] && Length(frags[1..]) == 0;
    OneBlob(i);
    hide Sample, Piece;
  }

  lemma FilesAreHeld(n: Count, rest: Rest)
    ensures FilesHold(Sample(), Files(n, rest), Tree(n, rest), Parts(n, rest))
    ensures forall i :: 0 <= i < |Files(n, rest)| ==> Length(Files(n, rest)[i].fragments) == 1
  {
    hide FileHolds, Length, Entry, One;
    var files, tree, parts := Files(n, rest), Tree(n, rest), Parts(n, rest);
    forall i | 0 <= i < |tree|
      ensures FileHolds(Sample(), files[i], tree[i], parts) && Length(files[i].fragments) == 1
    {
      if i < n {
        EntryHolds(10 + i, 0, i, parts);
      } else {
        EntryHolds(rest[i - n], 1 + i - n, 0, parts);
      }
    }
  }

  lemma {:induction false} OnesConcat(rest: Bytes)
    ensures Concat(Ones(rest)) == rest
  {
    if rest != [] {
      var k := |rest| - 1;
      OnesConcat(rest[..k]);
      assert Ones(rest) == Ones(rest[..k]) + [[rest[k]]];
      ConcatSnoc(Ones(rest[..k]), [rest[k]]);
      hide Concat, Ones;
      assert rest == rest[..k] + [rest[k]];
    }
  }

  lemma PartsConcat(n: Count, rest: Bytes)
    ensures Concat(Parts(n, rest)) == Filler(n) + rest
  {
    hide Concat, Ones;
    OnesConcat(rest);
    ConcatAppend([Filler(n)], Ones(rest));
    OnePart(Filler(n));
  }

  lemma {:induction false} SinglesStream(xs: Bytes)
    ensures Stream(Sample(), Singles(xs)) == xs
  {
    if xs == [] {
      assert Contents(Sample(), Singles(xs)) == [];
    } else {
      var k := |xs| - 1;
      SinglesStream(xs[..k]);
      StreamSnoc(Sample(), Singles(xs[..k]), One(xs[k]));
      SinglesSnoc(xs[..k], xs[k]);
      OneBlob(xs[k]);
      hide Stream, Singles, Sample;
      assert xs == xs[..k] + [xs[k]];
    }
  }

  lemma SinglesSnoc(xs: Bytes, x: Byte)
    ensures Singles(xs + [x]) == Singles(xs) + [One(x)]
  {}

  lemma OneBlob(i: Byte)
    ensures Sample().blob(One(i).oid) == [i] && Sample().blobId([i]) == One(i).oid
  {
    hide Sample, Lawful, OneDecoding, Pad, Decode, IsCode, Cut;
    SampleIs(One(i).oid, 0);
    SampleIs([i], 0);
  }

  lemma {:induction false} SumOnes(ns: seq<nat>)
    requires forall i :: 0 <= i < |ns| ==> ns[i] == 1
    ensures Sum(ns) == |ns|
  {
    if ns != [] {
      SumOnes(ns[1..]);
    }
  }

  /** Where frame `k` begins and ends. */
  lemma PartBounds(n: Count, rest: Rest, k: nat)
    requires k <= |rest|
    ensures |BoundsOf(Parts(n, rest))| == 1 + |rest|
    ensures BoundsOf(Parts(n, rest))[k] == Range(if k == 0 then 0 else n + k - 1, n + k)
  {
    var parts := Parts(n, rest);
    if k > 0 {
      assert parts[..k] == Parts(n, rest[..k - 1]);
      PartsConcat(n, rest[..k - 1]);
    } else {
      assert parts[..0] == [];
    }
    assert parts[..k + 1] == Parts(n, rest[..k]);
    PartsConcat(n, rest[..k]);
  }

  lemma OneSpells(i: Byte, frame: nat, offset: nat, bounds: Bounds, start: nat)
    requires frame < |bounds| && bounds[frame].lo + offset == start < bounds[frame].hi
    ensures Spells(Entry(i, frame, offset).fragments, bounds, start, start + 1)
  {
    assert Entry(i, frame, offset).fragments[1..] == [];
  }

  lemma IsPacked(n: Count, rest: Rest)
    ensures Packed(Files(n, rest), Parts(n, rest))
  {
    hide Spells, Length, BoundsOf, Concat, Parts, Filler, Entry, Sum, FilesHold;
    var files, parts, lens := Files(n, rest), Parts(n, rest), FileLens(Files(n, rest));
    FilesAreHeld(n, rest);
    PartsConcat(n, rest);
    FillerLength(n);
    SumOnes(lens);
    forall i | 0 <= i < |files|
      ensures Sum(lens[..i]) == i && Length(files[i].fragments) == 1
      ensures Spells(files[i].fragments, BoundsOf(parts), i, i + 1)
    {
      SumOnes(lens[..i]);
      var k := if i < n then 0 else 1 + i - n;
      PartBounds(n, rest, k);
      if i < n {
        OneSpells(10 + i, 0, i, BoundsOf(parts), i);
      } else {
        OneSpells(rest[i - n], k, 0, BoundsOf(parts), i);
      }
    }
  }

  lemma FillerLength(n: Count)
    ensures |Filler(n)| == n
  {}

  lemma {:induction false} CutFiller(xs: Bytes)
    requires xs != [] && forall i :: 0 <= i < |xs| ==> xs[i] < 100
    ensures Cut(xs) == [|xs|]
  {
    var k := |xs| - 1;
    if k > 0 {
      CutFiller(xs[..k]);
    } else {
      assert xs[..0] == [] && Cut(xs[..0]) == [];
    }
  }

  lemma {:induction false} CutRest(n: Count, rest: Bytes)
    requires forall j :: 0 <= j < |rest| ==> rest[j] >= 100
    ensures Cut(Filler(n) + rest) == Lengths(Parts(n, rest))
  {
    hide *;
    if rest == [] {
      FirstCut(n);
      assert Filler(n) + rest == Filler(n);
    } else {
      var k := |rest| - 1;
      CutRest(n, rest[..k]);
      assert rest == rest[..k] + [rest[k]];
      CutOneMore(n, rest[..k], rest[k]);
    }
  }

  lemma CutOneMore(n: Count, rest: Bytes, x: Byte)
    requires x >= 100 && Cut(Filler(n) + rest) == Lengths(Parts(n, rest))
    ensures Cut(Filler(n) + (rest + [x])) == Lengths(Parts(n, rest + [x]))
  {
    hide *;
    assert Filler(n) + (rest + [x]) == (Filler(n) + rest) + [x];
    CutNext(Filler(n) + rest, x);
    PartsSnoc(n, rest, x);
  }

  lemma FirstCut(n: Count)
    ensures Cut(Filler(n)) == [n] == Lengths(Parts(n, []))
  {
    CutFiller(Filler(n));
    hide Cut;
  }

  lemma CutNext(xs: Bytes, x: Byte)
    requires x >= 100
    ensures Cut(xs + [x]) == Cut(xs) + [1]
  {
    assert (xs + [x])[..|xs|] == xs;
  }

  lemma PartsSnoc(n: Count, rest: Bytes, x: Byte)
    ensures Lengths(Parts(n, rest + [x])) == Lengths(Parts(n, rest)) + [1]
  {
    hide Filler;
  }

  /** The archive is one that a whole build of the tree gives: its frames are the
      parts the stream is cut into, and the rest is what every build establishes. */
  lemma IsBuilt(n: Count, rest: Rest)
    ensures PackedArchive(Sample(), Made(n, rest), Tree(n, rest), [], TARGET)
    ensures RawLens(Frames(n, rest)) == Sample().cut(Stream(Sample(), Tree(n, rest)))
  {
    hide *;
    IsGrouped(n, rest);
    AloneBundled(n, rest);
    FramesAre(n, rest);
    FilesAreHeld(n, rest);
    IsPacked(n, rest);
    SinglesStream(Filler(n) + rest);
    PartsConcat(n, rest);
    HeldFits(Sample(), Files(n, rest), Tree(n, rest), Parts(n, rest));
    MadeIs(n, rest);
    FrameLens(n, rest);
    RestBytes(rest);
    CutRest(n, rest);
    SampleIs(Filler(n) + rest, 0);
    ArePacked(n, rest);
  }

  lemma RestBytes(rest: Rest)
    ensures forall j :: 0 <= j < |rest| ==> rest[j] >= 100
  {}

  lemma MadeIs(n: Count, rest: Rest)
    ensures var a := Made(n, rest);
      && a.frames == Frames(n, rest) && a.metadata.files == Files(n, rest) && a.bundles == Bundles(n, rest)
      && a.metadata.gitlinks == [] && a.metadata.frames == AllInfos(Alone(Frames(n, rest)))
    ensures Tree(n, rest) == Singles(Filler(n) + rest)
  {}

  lemma FrameLens(n: Count, rest: Rest)
    ensures RawLens(Frames(n, rest)) == Lengths(Parts(n, rest))
  {}

  lemma HeldFits(env: Env, files: seq<FileEntry>, tree: seq<TreeFile>, raws: seq<Bytes>)
    requires FilesHold(env, files, tree, raws)
    ensures EntriesFit(env, files, tree, raws)
  {
    hide Read, Length, InFrame;
    forall i | 0 <= i < |tree| ensures EntryFits(env, files[i], tree[i], raws) {
      assert FileHolds(env, files[i], tree[i], raws);
      ReadLength(files[i].fragments, raws);
    }
  }

  lemma ArePacked(n: Count, rest: Rest)
    requires GroupedBy(Sample(), Made(n, rest), Alone(Frames(n, rest)))
    requires Bundled(Frames(n, rest), MinLen(TARGET), MaxLen(TARGET)) == Alone(Frames(n, rest))
    requires Raws(Sample(), Frames(n, rest)) == Parts(n, rest) && Concat(Parts(n, rest)) == Filler(n) + rest
    requires forall k :: 0 <= k < |Frames(n, rest)| ==> 0 < Frames(n, rest)[k].rawLen
    requires FilesHold(Sample(), Files(n, rest), Tree(n, rest), Parts(n, rest))
    requires EntriesFit(Sample(), Files(n, rest), Tree(n, rest), Parts(n, rest))
    requires Packed(Files(n, rest), Parts(n, rest)) && Stream(Sample(), Tree(n, rest)) == Filler(n) + rest
    ensures PackedArchive(Sample(), Made(n, rest), Tree(n, rest), [], TARGET)
  {
    hide GroupedBy, Bundled, Frames, Files, Tree, Alone, Parts, FilesHold, EntriesFit, Packed, Stream, Concat, Raws,
      Sample, Bundles, AllInfos;
    FillerLength(n);
  }

  /** It is a tree git can check out, when a path of one byte is safe. */
  lemma IsTree(n: Count, rest: Rest, safe: Bytes -> bool)
    requires forall p: Bytes :: |p| == 1 ==> safe(p)
    ensures TreeOk(Sample(), Tree(n, rest), [], safe)
  {
    hide Sample;
    var tree, xs := Tree(n, rest), Filler(n) + rest;
    forall i | 0 <= i < |tree| ensures TreeFileOk(Sample(), tree[i], safe) {
      OneBlob(xs[i]);
    }
    forall i, j | 0 <= i < j < |tree| ensures TreePaths(tree, [])[i] != TreePaths(tree, [])[j] {
      assert tree[i].path[0] == xs[i] != xs[j] == tree[j].path[0];
    }
  }

  /** ... and so its table is valid, and it serves that tree. */
  lemma IsValid(n: Count, rest: Rest, safe: Bytes -> bool)
    requires forall p: Bytes :: |p| == 1 ==> safe(p)
    ensures GeometryOk(Made(n, rest).metadata, safe) && Sound(Sample(), Made(n, rest), Tree(n, rest), [])
    ensures BaseOf(Sample(), Made(n, rest), Alone(Frames(n, rest)), Tree(n, rest))
    ensures Concat(Raws(Sample(), Made(n, rest).frames)) == Stream(Sample(), Tree(n, rest))
  {
    hide *;
    IsBuilt(n, rest);
    IsTree(n, rest, safe);
    PackedIsSound(Sample(), Made(n, rest), Tree(n, rest), [], TARGET);
    SoundIsValid(Sample(), Made(n, rest), Tree(n, rest), [], safe);
    IsGrouped(n, rest);
    AreBase(Sample(), Made(n, rest), Alone(Frames(n, rest)), Tree(n, rest), [], TARGET);
  }

  lemma AreBase(env: Env, a: Archive, gs: seq<Group>, tree: seq<TreeFile>, gitlinks: seq<Bytes>, target: nat)
    requires GroupedBy(env, a, gs) && PackedArchive(env, a, tree, gitlinks, target)
    ensures BaseOf(env, a, gs, tree)
  {
    hide GroupedBy, FilesHold, Laid, Raws;
  }

  function Pre(n: Count): seq<TreeFile> { Singles(Filler(n)) }

  lemma Trees(n: Count)
    ensures Tree(n, BOTH) == Pre(n) + [One(100), One(101)] && Tree(n, LAST) == Pre(n) + [One(101)]
    ensures Pre(n) + [One(100)] == Singles(Filler(n) + [100])
  {
    hide One;
  }

  /** It is such a compact archive, whatever its size. */
  lemma IsCompacted(n: Count, safe: Bytes -> bool)
    requires forall p: Bytes :: |p| == 1 ==> safe(p)
    ensures Compacted(Sample(), Made(n, BOTH), Alone(Frames(n, BOTH)), Pre(n), One(100), One(101), 2)
  {
    hide *;
    IsValid(n, BOTH, safe);
    IsTree(n, BOTH, safe);
    OkPaths(Tree(n, BOTH), safe);
    Trees(n);
    SinglesStream(Filler(n) + BOTH);
    SinglesStream(Filler(n) + [100]);
    FramesAre(n, BOTH);
    FirstLens(n);
    OneBlob(100);
    OneBlob(101);
    MadeIs(n, BOTH);
    AreCompacted(n);
  }

  lemma OkPaths(tree: seq<TreeFile>, safe: Bytes -> bool)
    requires TreeOk(Sample(), tree, [], safe)
    ensures DistinctPaths(tree)
  {
    hide Sample, TreeFileOk;
    forall i, j | 0 <= i < j < |tree| ensures tree[i].path != tree[j].path {
      assert TreePaths(tree, [])[i] != TreePaths(tree, [])[j];
    }
  }

  lemma FirstLens(n: Count)
    ensures |Frames(n, BOTH)| == 3 && Sum(RawLens(Frames(n, BOTH))[..2]) == n + 1
  {
    FrameLens(n, BOTH);
    assert Lengths(Parts(n, BOTH))[..2] == [n] + [1];
    SumSnoc([n], 1);
    SumSnoc([], n);
    assert [] + [n] == [n];
    hide Frames;
  }

  lemma AreCompacted(n: Count)
    requires BaseOf(Sample(), Made(n, BOTH), Alone(Frames(n, BOTH)), Tree(n, BOTH)) && DistinctPaths(Tree(n, BOTH))
    requires Made(n, BOTH).frames == Frames(n, BOTH) && Tree(n, BOTH) == Pre(n) + [One(100), One(101)]
    requires Concat(Raws(Sample(), Made(n, BOTH).frames)) == Stream(Sample(), Tree(n, BOTH)) == Filler(n) + BOTH
    requires Stream(Sample(), Pre(n) + [One(100)]) == Filler(n) + [100]
    requires |Frames(n, BOTH)| == 3 && Sum(RawLens(Frames(n, BOTH))[..2]) == n + 1
    requires forall k :: 0 <= k < |Frames(n, BOTH)| ==> Frames(n, BOTH)[k].rawLen > 0
    requires Sample().blob(One(100).oid) == [100] && Sample().blob(One(101).oid) == [101]
    ensures Compacted(Sample(), Made(n, BOTH), Alone(Frames(n, BOTH)), Pre(n), One(100), One(101), 2)
  {
    hide BaseOf, Stream, Concat, Sum, Frames, Raws, Sample, Made, Tree, Alone, Pre, One, DistinctPaths;
    FillerLength(n);
    var b: Bytes, c: Bytes := [100], [101];
    assert b[0] != c[0];
  }

  /** The result whose base the changes are stored on: a packed build, stored whole. */
  function First(n: Count): FilesResult {
    var a := Made(n, LAST);
    FilesResult(a.frames, a.bundles, StoredTable(a.metadata, None), None)
  }

  /** The row of frame `k`: the start of its own bundle. */
  lemma RowAt(n: Count, rest: Rest, k: nat)
    requires k <= |rest|
    ensures var rows := Made(n, rest).metadata.frames;
      |rows| == 1 + |rest| == |Made(n, rest).bundles| && rows[k].chunkIndex == k && rows[k].chunkOffset == 0
    ensures Made(n, rest).bundles[k] == Pad(Encode(Parts(n, rest)[k]))
  {
    hide Frames, Frame, Pad, Encode, Parts, Concat, AllInfos, GroupLen, Files;
    var fs := Frames(n, rest);
    FrameAt(n, rest, k);
    AloneConcat(fs);
    AloneConcat(fs[..k]);
    assert Alone(fs)[..k] == Alone(fs[..k]);
    InfoAt(Alone(fs), k, 0);
    assert GroupLen([fs[k]][..0]) == 0 by { NoLength([fs[k]]); }
  }

  lemma NoLength(g: Group)
    ensures GroupLen(g[..0]) == 0
  {}

  lemma RowsCount(n: Count, rest: Rest)
    ensures FrameMaps.InBundles(Made(n, rest).metadata.frames, Made(n, rest).bundles)
    ensures |Made(n, rest).metadata.frames| == 1 + |rest| <= 3
  {
    hide Made;
    RowAt(n, rest, 0);
    forall k | 0 <= k < |Made(n, rest).metadata.frames|
      ensures Made(n, rest).metadata.frames[k].chunkIndex < |Made(n, rest).bundles|
    {
      RowAt(n, rest, k);
    }
  }

  /** There is a delta from the first table to the second. */
  lemma DeltaExists(n: Count, safe: Bytes -> bool)
    requires forall p: Bytes :: |p| == 1 ==> safe(p)
    ensures HasDelta(Made(n, BOTH).metadata, Made(n, BOTH).bundles, (First(n).table, First(n).bundles), safe)
  {
    hide *;
    IsValid(n, LAST, safe);
    RowsCount(n, BOTH);
    RowsCount(n, LAST);
    WholeHasDelta(Made(n, LAST).metadata, Made(n, LAST).bundles, Made(n, BOTH).metadata, Made(n, BOTH).bundles, safe);
    FirstIs(n);
  }

  lemma WholeHasDelta(base: Metadata, baseBundles: seq<Digest>, table: Metadata, bundles: seq<Digest>,
                      safe: Bytes -> bool)
    requires GeometryOk(base, safe) && FrameMaps.InBundles(base.frames, baseBundles)
    requires FrameMaps.InBundles(table.frames, bundles) && |table.frames| <= 3
    ensures HasDelta(table, bundles, (StoredTable(base, None), baseBundles), safe)
  {
    hide GeometryOk, FrameMaps.InBundles;
  }

  /** The same part is at the start of a bundle of the same name in both tables. */
  lemma SamePart(n: Count, k: nat, j: nat)
    requires k < 2 && j < 3 && Parts(n, LAST)[k] == Parts(n, BOTH)[j]
    ensures var a, b := Made(n, LAST), Made(n, BOTH);
      && k < |a.metadata.frames| && j < |b.metadata.frames|
      && Same(a.metadata.frames[k], a.bundles, b.metadata.frames[j], b.bundles)
  {
    hide Made, Pad, Encode, Parts;
    RowAt(n, LAST, k);
    RowAt(n, BOTH, j);
  }

  /** The map from the first table's frames to the second's. */
  lemma MapIs(n: Count, frameMap: seq<nat>, safe: Bytes -> bool)
    requires forall p: Bytes :: |p| == 1 ==> safe(p)
    requires IsBaseMap(First(n).table, First(n).bundles, Made(n, BOTH).metadata, Made(n, BOTH).bundles, frameMap)
    ensures frameMap == [1, 3]
  {
    hide *;
    var a, b := Made(n, LAST), Made(n, BOTH);
    BaseMapSlots(n, frameMap);
    IsGrouped(n, LAST);
    IsGrouped(n, BOTH);
    HypothesesHold();
    MapKeepsBytes(Sample(), a, Alone(Frames(n, LAST)), b, Alone(Frames(n, BOTH)), frameMap);
    FramesAre(n, LAST);
    FramesAre(n, BOTH);
    MadeIs(n, LAST);
    MadeIs(n, BOTH);
    PartsAre(n);
    SamePart(n, 0, 0);
    SamePart(n, 1, 2);
    KeptSlot(n, frameMap, 0, 0);
    KeptSlot(n, frameMap, 1, 2);
  }

  lemma BaseMapSlots(n: Count, frameMap: seq<nat>)
    requires IsBaseMap(First(n).table, First(n).bundles, Made(n, BOTH).metadata, Made(n, BOTH).bundles, frameMap)
    ensures |frameMap| == |Made(n, LAST).metadata.frames| == 2
    ensures forall k :: 0 <= k < |frameMap| ==>
      SlotOk(Made(n, LAST).metadata.frames[k], Made(n, LAST).bundles, Made(n, BOTH).metadata.frames,
        Made(n, BOTH).bundles, frameMap[k])
  {
    hide Made, SlotOk;
    RowsCount(n, LAST);
    forall k | 0 <= k < |frameMap|
      ensures SlotOk(Made(n, LAST).metadata.frames[k], Made(n, LAST).bundles, Made(n, BOTH).metadata.frames,
        Made(n, BOTH).bundles, frameMap[k])
    {
      assert ToPrevious(First(n).table)[k] == k + 1;
    }
  }

  /** No two parts of the second table are the same. */
  lemma PartsAre(n: Count)
    ensures Parts(n, LAST) == [Filler(n), [101]] && Parts(n, BOTH) == [Filler(n), [100], [101]]
    ensures forall i, j :: 0 <= i < 3 && 0 <= j < 3 && Parts(n, BOTH)[i] == Parts(n, BOTH)[j] ==> i == j
  {
    assert Parts(n, BOTH)[0][0] == 10 && Parts(n, BOTH)[1][0] == 100 && Parts(n, BOTH)[2][0] == 101;
  }

  lemma KeptSlot(n: Count, frameMap: seq<nat>, k: nat, j: nat)
    requires k < 2 && j < 3 && Parts(n, LAST)[k] == Parts(n, BOTH)[j] && |frameMap| == 2
    requires KeepsBytes(frameMap, Parts(n, LAST), Parts(n, BOTH))
    requires |Made(n, LAST).metadata.frames| == 2 && j < |Made(n, BOTH).metadata.frames|
    requires SlotOk(Made(n, LAST).metadata.frames[k], Made(n, LAST).bundles, Made(n, BOTH).metadata.frames,
               Made(n, BOTH).bundles, frameMap[k])
    requires Same(Made(n, LAST).metadata.frames[k], Made(n, LAST).bundles, Made(n, BOTH).metadata.frames[j],
               Made(n, BOTH).bundles)
    ensures frameMap[k] == j + 1
  {
    hide Made, Same, Parts;
    PartsAre(n);
  }

  lemma FilesApart(n: Count)
    ensures |Files(n, BOTH)| == n + 2 && |Files(n, LAST)| == n + 1
    ensures DistinctFiles(Files(n, BOTH)) && DistinctFiles(Files(n, LAST))
    ensures PathsOf(Files(n, LAST)) == PathsOf(Files(n, BOTH)[..n] + [Files(n, BOTH)[n + 1]])
    ensures PathsOf(Files(n, LAST)) == PathsOf(EntriesOf(Pre(n) + [One(101)]))
  {
    FilesDiffer(n, BOTH);
    FilesDiffer(n, LAST);
    hide DistinctFiles;
    assert |BOTH| == 2 && |LAST| == 1;
  }

  lemma FilesDiffer(n: Count, rest: Rest)
    ensures |Files(n, rest)| == n + |rest| && DistinctFiles(Files(n, rest))
    ensures forall i :: 0 <= i < n + |rest| ==>
      Files(n, rest)[i] == if i < n then Entry(10 + i, 0, i) else Entry(rest[i - n], 1 + i - n, 0)
  {
    var files := Files(n, rest);
    forall i, j | 0 <= i < j < |files| ensures files[i].path != files[j].path {
      PathOf(n, rest, i);
      PathOf(n, rest, j);
    }
  }

  /** The first files' paths are in order, and the others are `rest`. */
  lemma PathOf(n: Count, rest: Rest, i: nat)
    requires i < n + |rest|
    ensures |Files(n, rest)[i].path| == 1 && Files(n, rest)[i].path[0] == if i < n then 10 + i else rest[i - n]
    ensures i >= n ==> rest[i - n] >= 100
  {
    assert Files(n, rest)[i] == if i < n then Entry(10 + i, 0, i) else Entry(rest[i - n], 1 + i - n, 0);
  }

  /** All files but the second last are the base's, with their frames renumbered. */
  lemma FileKept(n: Count, i: nat)
    requires i < n + 2 && i != n
    ensures KeptFrom(Files(n, LAST), [1, 3], Files(n, BOTH)[i])
  {
    hide Lookup, DistinctFiles, Files;
    FilesDiffer(n, BOTH);
    FilesDiffer(n, LAST);
    assert |BOTH| == 2 && |LAST| == 1;
    LookupAt(Files(n, LAST), if i < n then i else n);
  }

  /** The delta lists the second last file alone, of `n + 2`, and removes none. */
  lemma DeltaLists(n: Count, d: MetadataDelta, safe: Bytes -> bool)
    requires forall p: Bytes :: |p| == 1 ==> safe(p)
    requires IsDeltaOn(d, Made(n, BOTH).metadata, Made(n, BOTH).bundles, (First(n).table, First(n).bundles))
    ensures d.files == [Files(n, BOTH)[n]] && d.removed == [] && d.baseFrames == [1, 3]
  {
    hide *;
    DeltaIs(n, d);
    MapIs(n, d.baseFrames, safe);
    MadeIs(n, LAST);
    MadeIs(n, BOTH);
    FilesApart(n);
    RowsCount(n, LAST);
    RestSizes();
    forall i | 0 <= i < n + 2 && i != n ensures KeptFrom(Files(n, LAST), [1, 3], Files(n, BOTH)[i]) {
      FileKept(n, i);
    }
    DeltaIsSmall(Made(n, LAST).metadata, [1, 3], Made(n, BOTH).metadata, n);
  }

  lemma RestSizes()
    ensures |BOTH| == 2 && |LAST| == 1
  {}

  lemma DeltaIs(n: Count, d: MetadataDelta)
    requires IsDeltaOn(d, Made(n, BOTH).metadata, Made(n, BOTH).bundles, (First(n).table, First(n).bundles))
    ensures IsBaseMap(First(n).table, First(n).bundles, Made(n, BOTH).metadata, Made(n, BOTH).bundles, d.baseFrames)
    ensures Between(Made(n, LAST).metadata, d.baseFrames, Made(n, BOTH).metadata) == Ok(d)
  {
    hide Made, IsBaseMap, Between;
  }

  /** The second build's bundles. */
  function Stored(n: Count): map<Digest, Bytes> {
    var x, y, z := Encode(Filler(n)), Encode([100]), Encode([101]);
    map[Pad(x) := x, Pad(y) := y, Pad(z) := z]
  }

  lemma StoredKnown(n: Count)
    ensures StoresKnown(Sample(), Stores(Stored(n), None))
  {
    hide Pad, Encode, Sample, Lawful, OneDecoding, Stored;
    forall d, i: nat, j: nat | d in Stored(n) && i <= j <= |Stored(n)[d]| ensures Stored(n)[d][i..j] in Sample().known {
      StoredSmall(n, d);
      SampleIs(Stored(n)[d][i..j], 0);
    }
  }

  lemma StoredSmall(n: Count, d: Digest)
    requires d in Stored(n)
    ensures |Stored(n)[d]| <= 57
  {
    EncodeLength(Filler(n));
    EncodeLength([100]);
    EncodeLength([101]);
    hide Pad, Encode;
  }

  lemma TreeKnown(n: Count)
    ensures Lawful(Sample()) && StreamKnown(Sample(), Stream(Sample(), Pre(n) + [One(101)]))
  {
    hide Lawful, StreamKnown, OneDecoding, Stream, Sample, Tree;
    HypothesesHold();
    Trees(n);
    MadeIs(n, LAST);
    FillerLength(n);
    SinglesStream(Filler(n) + LAST);
  }

  /** A packed build of the tree without the second last file, one of the tree with it
      whose table is stored after the first, and a compaction of the tree without it on
      the table read back. The table is stored as a delta of one file, and the last
      archive is not its tree, whatever the number of files. */
  method CompactExample(env: Env, n: Count, safe: Bytes -> bool) returns (t: StoredTable, r: Result<Built>)
    requires env == Sample() && forall p: Bytes :: |p| == 1 ==> safe(p)
    ensures t.base == Made(n, LAST).metadata && t.delta.Some?
    ensures t.delta.value.files == [Files(n, BOTH)[n]] && t.delta.value.removed == []
    ensures Loaded(t, safe) == Ok(ReadBack(Made(n, BOTH), Files(n, LAST)).metadata)
    ensures r.Ok? ==> !Sound(env, r.value.archive, Tree(n, LAST), [])
    ensures r.Err? ==> r.error in {Limit, Unreadable}
  {
    hide *;
    IsCompacted(n, safe);
    IsValid(n, BOTH, safe);
    TreeKnown(n);
    StoredKnown(n);
    DeltaExists(n, safe);
    FilesApart(n);
    MadeIs(n, LAST);
    MadeIs(n, BOTH);
    FirstIs(n);
    Trees(n);
    var a, previous := Made(n, BOTH), First(n);
    t, r := StoreAndCompact(env, Stores(Stored(n), None), a, previous, Pre(n), One(100), One(101), [], TARGET, 1, safe,
      Alone(Frames(n, BOTH)), 2);
    DeltaLists(n, t.delta.value, safe);
  }

  lemma FirstIs(n: Count)
    ensures First(n).table == StoredTable(Made(n, LAST).metadata, None) && TARGET <= U64_MAX
    ensures First(n).bundles == Made(n, LAST).bundles
  {}
}
