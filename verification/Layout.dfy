/** The worktree as one stream: files in tree order, end to end (rust/src/archive.rs). */
module Layouts {
  import opened Clonepack
  import opened Seqs
  import opened Fragments

  datatype Layout = Layout(blobs: seq<TreeFile>, gitlinks: seq<Bytes>, sizes: seq<nat>, starts: seq<nat>, total: nat)

  function Contents(env: Env, blobs: seq<TreeFile>): seq<Bytes> {
    seq(|blobs|, i requires 0 <= i < |blobs| => env.blob(blobs[i].oid))
  }

  /** Every file's bytes in tree order. */
  function Stream(env: Env, blobs: seq<TreeFile>): Bytes {
    Concat(Contents(env, blobs))
  }

  /** Sizes from the object headers. */
  function BlobSizes(env: Env, blobs: seq<TreeFile>): seq<nat> {
    Lengths(Contents(env, blobs))
  }

  /** The sizes are the blobs' and the starts add them up. */
  ghost predicate ValidLayout(env: Env, l: Layout) {
    && l.sizes == BlobSizes(env, l.blobs)
    && |l.starts| == |l.blobs|
    && (forall i :: 0 <= i < |l.starts| ==> l.starts[i] == Sum(l.sizes[..i]))
    && l.total == Sum(l.sizes)
  }

  method NewLayout(blobs: seq<TreeFile>, gitlinks: seq<Bytes>, sizes: seq<nat>) returns (r: Result<Layout>)
    requires |sizes| == |blobs|
    ensures r.Err? <==> Sum(sizes) > U64_MAX
    ensures r.Err? ==> r.error == Limit
    ensures r.Ok? ==> forall env :: sizes == BlobSizes(env, blobs) ==> ValidLayout(env, r.value)
    ensures r.Ok? ==> r.value.blobs == blobs && r.value.gitlinks == gitlinks && r.value.sizes == sizes
  {
    var starts := [];
    var total := 0;
    for i := 0 to |sizes|
      invariant |starts| == i
      invariant total == Sum(sizes[..i])
      invariant total <= U64_MAX
      invariant forall j :: 0 <= j < i ==> starts[j] == Sum(sizes[..j])
    {
      starts := starts + [total];
      SumNext(sizes, i);
      SumMonotone(sizes, i + 1, |sizes|);
      total := total + sizes[i];
      if total > U64_MAX {
        return Err(Limit);
      }
    }
    assert sizes[..|sizes|] == sizes;
    return Ok(Layout(blobs, gitlinks, sizes, starts, total));
  }

  /** Each file's slice of the stream is its blob. */
  lemma FileSlice(env: Env, l: Layout, i: nat)
    requires ValidLayout(env, l)
    requires i < |l.blobs|
    ensures l.total == |Stream(env, l.blobs)|
    ensures l.starts[i] + l.sizes[i] <= l.total
    ensures Stream(env, l.blobs)[l.starts[i]..l.starts[i] + l.sizes[i]] == env.blob(l.blobs[i].oid)
  {
    var parts := Contents(env, l.blobs);
    ConcatPart(parts, i);
    ConcatPrefixLength(parts, i);
    ConcatLength(parts);
  }

  lemma StartsNext(env: Env, l: Layout, i: nat)
    requires ValidLayout(env, l)
    requires i < |l.blobs|
    ensures l.starts[0] == 0
    ensures i + 1 < |l.blobs| ==> l.starts[i + 1] == l.starts[i] + l.sizes[i]
    ensures i + 1 == |l.blobs| ==> l.total == l.starts[i] + l.sizes[i]
  {
    SumNext(l.sizes, i);
    assert l.sizes[..|l.sizes|] == l.sizes;
  }

  /** The file of a table that stands for `blob`, at its place in the stream. */
  ghost predicate FileAt(entry: FileEntry, blob: TreeFile, bounds: Bounds, start: nat, size: nat) {
    && entry.path == blob.path && entry.mode == blob.mode && entry.blob == blob.oid
    && entry.fragments != []
    && Spells(entry.fragments, bounds, start, start + size)
  }

  lemma SpelledAt(blob: TreeFile, frags: seq<Fragment>, bounds: Bounds, start: nat, size: nat)
    requires frags != [] && Spells(frags, bounds, start, start + size)
    ensures FileAt(FileEntry(blob.path, blob.mode, blob.oid, frags), blob, bounds, start, size)
  {}

  lemma LayoutCounts(env: Env, l: Layout)
    requires ValidLayout(env, l)
    ensures |l.starts| == |l.sizes| == |l.blobs|
  {}

  lemma FirstHint(env: Env, l: Layout, bounds: Bounds)
    requires ValidLayout(env, l) && l.blobs != [] && Tiles(bounds, l.total)
    ensures bounds != [] && HintOk(bounds, 0, l.starts[0])
  {}

  /** Each file's fragments over `bounds`. */
  method FilesTable(env: Env, l: Layout, bounds: Bounds) returns (r: Result<seq<FileEntry>>)
    requires ValidLayout(env, l)
    requires l.blobs != [] ==> Tiles(bounds, l.total)
    ensures FitsU32(bounds) ==> r.Ok?
    ensures r.Err? ==> r.error == Limit
    ensures r.Ok? ==> |r.value| == |l.blobs|
    ensures r.Ok? ==> forall i :: 0 <= i < |l.blobs| ==> FileAt(r.value[i], l.blobs[i], bounds, l.starts[i], l.sizes[i])
  {
    hide *;
    LayoutCounts(env, l);
    var files: seq<FileEntry> := [];
    var hint := 0;
    if l.blobs != [] {
      FirstHint(env, l, bounds);
    }
    for i := 0 to |l.blobs|
      invariant |files| == i
      invariant i < |l.blobs| ==> HintOk(bounds, hint, l.starts[i])
      invariant forall j :: 0 <= j < i ==> FileAt(files[j], l.blobs[j], bounds, l.starts[j], l.sizes[j])
    {
      StartsNext(env, l, i);
      FileSlice(env, l, i);
      var mapped := FragmentsFor(bounds, l.starts[i], l.sizes[i], hint, l.total);
      if mapped.Err? {
        return Err(mapped.error);
      }
      var blob := l.blobs[i];
      files := files + [FileEntry(blob.path, blob.mode, blob.oid, mapped.value.0)];
      SpelledAt(blob, mapped.value.0, bounds, l.starts[i], l.sizes[i]);
      hint := mapped.value.1;
    }
    return Ok(files);
  }
}
