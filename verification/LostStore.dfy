/** The wrong compaction by the operations that lead to it: the table is stored,
    read back and compacted onto (rust/src/server/builder.rs, `store_table`,
    `load_metadata` and `build_files_result`). */
module LostStores {
  import opened Clonepack
  import opened Seqs
  import opened Layouts
  import opened Grouping
  import opened Archives
  import opened Manifests
  import opened Bundlers
  import opened Streams
  import opened Builds
  import opened Deltas
  import opened DeltaStreams
  import opened FilesResults
  import opened LostOrders

  /** Store the table of a compact archive after a result whose base table has the
      files without `b`, read it back, and compact the tree without `b` onto it: the
      table is stored as a delta, and the archive is not the tree. */
  method StoreAndCompact(env: Env, stores: Stores, a: Archive, previous: FilesResult, pre: seq<TreeFile>, b: TreeFile,
                         c: TreeFile, gitlinks: seq<Bytes>, target: nat, min: nat, safe: Bytes -> bool,
                         ghost gs: seq<Group>, ghost m: nat)
    returns (t: StoredTable, r: Result<Built>)
    requires Lawful(env) && StoresKnown(env, stores) && StreamKnown(env, Stream(env, pre + [c])) && target <= U64_MAX
    requires Compacted(env, a, gs, pre, b, c, m) && GeometryOk(a.metadata, safe)
    requires PathsOf(previous.table.base.files) == PathsOf(EntriesOf(pre + [c]))
    requires HasDelta(a.metadata, a.bundles, (previous.table, previous.bundles), safe)
    ensures t.delta.Some? && t.base == previous.table.base
    ensures IsDeltaOn(t.delta.value, a.metadata, a.bundles, (previous.table, previous.bundles))
    ensures Loaded(t, safe) == Ok(ReadBack(a, t.base.files).metadata)
    ensures r.Ok? ==> !Sound(env, r.value.archive, pre + [c], gitlinks)
    ensures r.Ok? ==> Concat(Raws(env, r.value.archive.frames)) == Stream(env, pre + [b])
    ensures r.Err? ==> r.error in {Limit, Unreadable}
  {
    hide *;
    t := StoreTable(a.metadata, a.bundles, Some((previous.table, previous.bundles)), true, true, safe);
    AsReadBack(t, a.metadata, safe);
    var metadata := LoadMetadata(t, true, safe);
    BackIs(a, t.base.files, metadata.value);
    var back := Archive(a.frames, metadata.value, a.bundles);
    r := CompactLost(env, stores, back, pre, b, c, gitlinks, target, min, a, t.base.files, gs, m);
  }

  lemma BackIs(a: Archive, base: seq<FileEntry>, metadata: Metadata)
    requires metadata == a.metadata.(files := Reordered(base, a.metadata.files))
    ensures Archive(a.frames, metadata, a.bundles) == ReadBack(a, base)
  {}
}
