# ripclone: verified model

ripclone turns a git tree into content-addressed artifacts (frames in download
bundles, a files table, packs) and turns the artifacts back into a tree. Several
fast paths must agree with the simple one. This project models those paths in
Dafny and proves that they do.

The modules follow the program:

- **Files archive.** `Layout`, `Fragments`, `Streams`, `Grouping`, `Bundler`,
  `BaseIndex`, `Plan`, `Output` (the bytes a plan's frames hold), `Gaps`, `Builds`
  (whole and incremental builds), `Tail`
  (tail builds), `Archives` (what a well-formed archive is).
- **Files table.** `Manifest` (geometry), `Listing`, `Delta`, `DeltaOrder`,
  `DeltaStream`, `FrameMap`.
- **Extraction.** `Chunks`, `Extract` (the pending-file machine), `Schedules`
  (every interleaving of the writers), `Checkout` (from an archive to the tree).
- **Chains of builds.** `FilesResult`: tails, compactions, stored tables. `LostOrder`,
  `LostStore` and `LostExample`: the compaction that goes wrong.
- **Packs.** `HeadPacks`, `HeadCheckout`, `History`, `SidePacks`.
- **Formats.** `Words`, `Zlib`, `PackHeader`, `PackFile`, `PackIndex`.
- **Protocols.** `Pins`, `Reaper`, `Cancel`, `Download`.

Hypotheses are stated where they are used. SHA-256 is collision-free on a set of
byte strings (`Env.known`), never everywhere. zstd decodes what it encodes, its
frames are self-delimiting, and what it decodes does not depend on the room it is
given. Content-defined chunking cuts a stream into nonempty parts. git's walks give
everything one side reaches that the other does not. The check that a path is safe
is a parameter. `Hypotheses.HypothesesHold` gives an environment that meets the laws
of the libraries, so they do not contradict one another.

## Main results

1. **Every builder is exact.** `Builds.BuildIntoCas` (whole, or incremental on a
   well-formed base) and `Tails.BuildTail` give an archive whose every file reads back
   as its blob; the internal length and tiling checks cannot fail. The incremental
   build is exact whenever the ranges its index recovers from the base are, and on any
   other base `Builds.LaidExact` says exactly when its archive is the tree.
   `Checkouts.SoundIsValid` and `Checkouts.Checkout` take any sound archive through
   validation, chunked fetching, slicing, decompression and any interleaving of the
   writers to exactly the tree.
2. **Rebuilding an unchanged tree does nothing**: no byte read, no frame or bundle
   made, the same bundles.
3. **A chain of builds stays exact, with one exception that is characterised.**
   `FilesResults.BuildFilesResult` covers one build: tails, compactions, bases that
   cannot be read and tables stored as deltas. `FilesResults.EveryChain` covers a chain
   of any length: only a compaction onto a table that lost its order can go wrong, and
   tails on such a result cannot. See the finding below.
4. **The extractor is confluent**: `Schedules.Confluence`.
5. **Head packs stay disjoint and complete**, and a checkout from them writes each
   worktree path exactly once (`HeadCheckouts.CheckoutHead`).
   History levels and side-pack layers stay complete.
6. **Packs, idx files and stored zlib streams are read back** by independent readers,
   and Adler-32 with one reduction per run equals the per-byte definition in 32 bits.
7. **Four protocols are safe in every run**: pins, the reaper, cancellation, downloads.

## Finding: a compacted table read back from a delta can lose its order

`BaseIndex::new` recovers each file's range of the frame stream by summing the lengths
of the files before it in the table, and checks only the totals
(rust/src/archive.rs:286-289). A table stored as a delta comes back with the files its
base has first, in the base's order, and added files last
(rust/src/manifest.rs:366-370), and `store_table` stores compacted tables this way too
(rust/src/server/builder.rs:318-380). So a file added between two others can leave a
compact archive whose table, read back, passes the check with wrong ranges.

- **Exactly when the ranges are right.** `BaseIndexes.RangesIff`: when the totals
  agree, every recovered range holds its file's blob if and only if the frames hold the
  stream of the table's own tree. `FilesResults.StoredRecovers`: a stored result can be
  compacted onto if and only if its table is stored whole or the delta's order gives the
  tree the same stream. `DeltaStreams.InOrderKeepsStream` gives a sufficient case, files
  with bytes that list the base's first and in its order, and
  `DeltaStreams.EqualContents` shows that it is not a necessary one.
- **The input.** Take a compact archive of some files, then `b`, then `c` of the same
  size and other bytes, with a frame ending where `b` does, whose table is stored as
  changes from one without `b`. However many files there are, the delta lists at most
  two of them and removes none (`LostOrders.DeltaIsSmall`). The index accepts the table
  that is read back, and once `b` is removed the plan keeps the frames up to the end of
  `b`, reads nothing, and so holds the bytes of the tree with `b` for the one with `c`
  (`LostOrders.LostPlan`). The archive built so is not the tree
  (`LostOrders.CompactLost`). `LostStores.StoreAndCompact` goes there by the operations
  themselves: store the table, load it back, compact onto it.
- **A concrete run.** `LostExamples.CompactExample` does that for trees of 3 to 30 files.
  Both archives are ones a whole build gives (`LostExamples.IsBuilt`), with a target so
  small that each frame has a bundle of its own. The frame map is the one `frame_map`
  computes (`LostExamples.MapIs`), and the delta lists the one new file
  (`LostExamples.DeltaLists`).
- **What is not affected.** Serving clones: `FilesResults.StoredServes` holds in any
  order. Tails: `FilesResults.BuildFilesResult` gives exactly its tree on such a result.

## Model

| member | source | states |
|---|---|---|
| `Fragments.FragmentsFor` | rust/src/archive.rs:81-129 | the fragments, read in order, are exactly the file's byte range of the stream; only a 32-bit limit can stop it; the hint stays right for the next file |
| `Fragments.SpelledBytes` | rust/src/archive.rs:73-129 | fragments that spell a range read back as that slice of the stream |
| `Layouts.NewLayout` | rust/src/archive.rs:584-601 | each file starts where the sizes before it add up to; fails exactly when the total passes 64 bits |
| `Layouts.FilesTable` | rust/src/archive.rs:603-628 | every file's entry spells its own range of the frames |
| `Streams.StreamFrames` | rust/src/archive.rs:791-906 | the frames handed to the bundler hold the stream end to end |
| `Bundlers.BuildFrameGenuine` | rust/src/archive.rs:189-213 | a frame found in the base by its raw hash, or made, decodes to its bytes |
| `Bundlers.ReadFrameExact` | rust/src/archive.rs:302-338 | a base frame's compressed bytes are read exactly, from either store, or not at all |
| `Bundlers.Bundler.Push` | rust/src/archive.rs:386-398 | adds one frame; the bundles cut so far are those of the cutting rule |
| `Bundlers.Bundler.Close` | rust/src/archive.rs:400-444 | the open bundle is reused by key or written, its frames take their table rows, the counts add up |
| `Bundlers.WriteGroup` | rust/src/archive.rs:448-475 | the bundle's bytes are its frames' compressed bytes; the group-length check never fails |
| `Bundlers.FoundExact` | rust/src/archive.rs:400-444 | a base bundle found by key is named by the hash of exactly the bytes that would be written |
| `BaseIndexes.KeyNamesBody` | rust/src/archive.rs:262-268 | equal fixed-width concatenated frame-hash keys mean equal bundle bytes |
| `BaseIndexes.NewBaseIndex` | rust/src/archive.rs:232-298 | accepted exactly when the totals agree; each file's range holds its blob in the stream of the table's tree, and each frame its place in the frame stream |
| `BaseIndexes.RangesIff` | rust/src/archive.rs:270-298 | when the totals agree, every range recovered by summing lengths holds its file's blob if and only if the frames hold the stream of the table's tree |
| `Grouping.PushAllFrames` | rust/src/archive.rs:386-398 | cutting loses and reorders no frame |
| `Grouping.BundledShape` | rust/src/archive.rs:362-444 | no bundle is empty, one over `max` is a single frame, neighbours together hold at least `min` |
| `Grouping.BundleCount` | rust/src/archive.rs:362-398 | at most `2 * total / min + 1` bundles |
| `Grouping.Resynchronised` | rust/src/archive.rs:386-398 | two frame sequences that end a bundle before a common rest have the same bundles from there on |
| `Archives.PackedSlice` | rust/src/archive.rs:270-298 | in a packed archive each blob is the stream's slice at the sum of the lengths before it |
| `Plans.PlanIncremental` | rust/src/archive.rs:1187-1300 | a kept frame's range of the new stream has the bytes the index claims for it; kept frames and gaps tile the stream; each gap is at least the minimum frame and together they are at most half; files unmoved up to a frame's end keep exactly the frames up to there |
| `Plans.FindSegments` | rust/src/archive.rs:1212-1230 | each run of unchanged files adjacent in both streams holds the same bytes in the new stream and in the one the index claims |
| `Plans.KeepFrames` | rust/src/archive.rs:1236-1257 | every frame kept moves with its run to a place that has the bytes claimed for it; one run over the first frames keeps every one of them that holds bytes |
| `Plans.DropShortGaps` | rust/src/archive.rs:1259-1273 | the frames left leave no gap shorter than the minimum frame; adjacent frames all stay |
| `Plans.MakePlan` | rust/src/archive.rs:1259-1299 | the plan keeps what it promises, and frames that already take up the whole stream are all kept with no gap |
| `Outputs.OutputExact` | rust/src/archive.rs:1187-1300 | when the frames hold what the index claims, what the plan's frames and gaps hold is the new stream |
| `Gaps.ReadGap` | rust/src/archive.rs:1372-1411 | the files' pieces read for a gap are exactly its bytes of the stream |
| `Gaps.CutGaps` | rust/src/archive.rs:1365-1411 | the new frames fill each gap exactly; the gap-length check never fails |
| `Gaps.BuildGaps` | rust/src/archive.rs:1305-1360 | kept and new frames are emitted in stream order and tile the plan's output, so the tiling check never fails; it reads exactly the gaps |
| `Builds.BuildIntoCas` | rust/src/archive.rs:942-1008 | on any well-formed base the archive is laid out for the tree and cut by the frames' hashes; it is exactly the tree when the ranges recovered from the base are right or the base is refused; rebuilding the base's own tree reads, builds and changes nothing; a tree of the base's first files is built from its first frames |
| `Builds.LaidExact` | rust/src/archive.rs:942-1008 | an archive laid out for a tree is exactly that tree if and only if its frames hold the tree's stream |
| `Builds.EmitTree` | rust/src/archive.rs:963-988 | by plan or by streaming, the bundler receives frames that tile the stream's length, and hold the stream when the base's claims are right |
| `Builds.PackedIsSound` | rust/src/archive.rs:942-1008 | a packed archive is a well-formed archive of the tree |
| `Builds.SameTreeUnmoved` | rust/src/archive.rs:1192-1230 | the tree of a base whose frames hold its stream is found unmoved in the base's index |
| `Tails.BuildTail` | rust/src/archive.rs:1019-1182 | the archive is exactly the tree; it keeps exactly the base bundles the tree uses, in order, then the new ones; it reads each new blob once |
| `Tails.RenumberFrames` | rust/src/archive.rs:1072-1094 | the kept frames' table is that of the kept bundles and each kept frame's new index holds the same frame |
| `Tails.MarkLive` | rust/src/archive.rs:1061-1071 | a bundle is live exactly when a kept fragment uses one of its frames |
| `Tails.SplitBlobs` | rust/src/archive.rs:1047-1059 | blobs the base holds keep its fragments; the tail is each other blob, once, in tree order |
| `Tails.ByBlob` | rust/src/archive.rs:1039-1045 | each blob the base holds leads to fragments that read back as it, the last listed |
| `Tails.KeepBundles` | rust/src/archive.rs:1072-1079 | exactly the live bundles are kept, in order, each numbered by the live ones before it |
| `Tails.AddTail` | rust/src/archive.rs:1103-1149 | the tail's bundles are cut from its stream, and its fragments, moved past the kept frames, read back as its blobs; empty blobs point at frame 0 |
| `Tails.TailFiles` | rust/src/archive.rs:1151-1173 | every file of the tree reads back as its blob, from kept or new frames |
| `Tails.RenumberRead` | rust/src/archive.rs:1153-1161 | renumbered fragments read the same bytes |
| `Tails.AllInfosAppend` | rust/src/archive.rs:1139-1144 | the tail's frame table after the kept one is the table of all bundles |
| `Manifests.ValidateGeometry` | rust/src/manifest.rs:76-218 | accepts a table exactly when modes, paths, ids and fragments are right, no path is twice and the frames are contiguous in bundle order |
| `Manifests.ArchiveChunkLengths` | rust/src/clonepack.rs:130-150 | one length per bundle of a valid table: where its last frame ends |
| `Checkouts.BundleLengths` | rust/src/clonepack.rs:130-150 | for a well-formed archive these are the bundles' real lengths |
| `Checkouts.AllChained` | rust/src/manifest.rs:160-218 | the frame table of any bundles is contiguous in bundle order |
| `Checkouts.SoundIsValid` | rust/src/manifest.rs:76-218 | every sound archive of a tree passes validation |
| `Chunks.ComputeChunks` | rust/src/extract.rs:66-129 | the chunks cover the frames in order, each within one bundle and within the size or one frame with bytes; without a limit, one per bundle |
| `Chunks.SliceExact` | rust/src/extract.rs:131-166 | slicing a fetched range gives the frame's own bytes |
| `Checkouts.FrameDecodes` | rust/src/extract.rs:448-512 | every frame decodes to its bytes from whichever chunk it is fetched in |
| `Checkouts.DecodeAll` | rust/src/extract.rs:448-512 | all frames are decoded, for every chunk size |
| `Schedules.FragmentsByFrame` | rust/src/manifest.rs:223-234 | each frame lists exactly its fragments, in file order |
| `Extracts.Writer.TakeFragment` | rust/src/extract.rs:539-659 | one writer's turn under the lock is one step of the machine, or fails and changes nothing |
| `Extracts.Gather` | rust/src/extract.rs:624-637 | a file's slots put together in order, or nothing while one is empty |
| `Extracts.TakeOnly` | rust/src/extract.rs:560-579 | a file of one fragment is written at once and the state stays consistent |
| `Extracts.TakeOneOfMany` | rust/src/extract.rs:580-658 | a fragment fills its slot, `remaining` counts the empty slots, the last one writes the file once and whole |
| `Extracts.AnyOrder` | rust/src/extract.rs:411-425 | in any order of distinct fragments no step fails and the state depends only on which have come |
| `Schedules.ScheduleTakesAll` | rust/src/extract.rs:500-540 | every schedule of the writers takes every fragment exactly once |
| `Schedules.Confluence` | rust/src/extract.rs:411-425 | whichever way the writers interleave, nothing is left pending and each file is written once, whole |
| `Checkouts.RunWriters` | rust/src/extract.rs:500-659 | the writers' turns one after the other are a run of the machine |
| `Checkouts.Checkout` | rust/src/extract.rs:374-735 | a sound archive is checked out as exactly its tree, for every chunk size and schedule |
| `Deltas.Apply` | rust/src/manifest.rs:328-378 | the loops compute what the delta makes of the base, with every error case |
| `Deltas.PatchRight` | rust/src/manifest.rs:340-361 | each base file becomes the table's file at its path, or nothing |
| `Deltas.AddedRight` | rust/src/manifest.rs:366-370 | the files appended are exactly those the base lacks |
| `DeltaOrders.RoundTrip` | rust/src/manifest.rs:284-378 | for any frame map of the right length, the delta applied to the base succeeds and gives the table's frames, gitlinks and files, shared ones first in base order |
| `DeltaOrders.SameAtEveryPath` | rust/src/manifest.rs:284-378 | as a map from paths to entries the round trip is exact |
| `DeltaOrders.ReorderedPermutes` | rust/src/manifest.rs:340-370 | what comes back is a permutation of the table's files |
| `DeltaOrders.OrderKept` | rust/src/manifest.rs:340-370 | the order comes back exactly when the table lists the base's files first and in its order |
| `DeltaOrders.PackedSameOrder` | rust/src/archive.rs:270-298 | two lists of the same files both spell the frame stream in order, fragment by fragment, only when those that hold bytes are in the same order |
| `DeltaOrders.DeltaKeepsPacked` | rust/src/server/builder.rs:270-284 | a table whose fragments are in stream order still has them so, read back from its delta, exactly when its files that hold bytes list the base's first and in its order |
| `DeltaOrders.AddedBetween` | rust/src/archive.rs:286-289 | a concrete table of that kind whose total agrees when read back and whose summed lengths put a file at another file's byte |
| `DeltaStreams.TreeReordered` | rust/src/manifest.rs:340-370 | the tree that is read back depends on the trees alone, not on where the files are |
| `DeltaStreams.InOrderKeepsStream` | rust/src/manifest.rs:340-370 | a tree whose files with bytes list the base's first and in its order keeps its stream through the delta |
| `DeltaStreams.EqualContents` | rust/src/manifest.rs:340-370 | that order is not needed: files of equal bytes may change places |
| `LostOrders.DeltaIsSmall` | rust/src/manifest.rs:284-325 | with all files kept but the last two, the delta lists at most those two and removes none, however many files there are; with the last one kept too it lists the new file alone |
| `LostOrders.LostPlan` | rust/src/archive.rs:286-289 | the index accepts such a table read back out of order, and the plan keeps frames that hold another stream and reads nothing |
| `LostOrders.CompactLost` | rust/src/archive.rs:942-1008 | the archive compacted on that table is not the tree: it holds the removed file's bytes |
| `LostStores.StoreAndCompact` | rust/src/server/builder.rs:270-380 | such a table, stored after a result without the file, becomes a delta, is read back out of order, and the archive compacted on it is not the tree |
| `LostExamples.IsBuilt` | rust/src/archive.rs:942-1008 | each archive of the example is packed, with its frames where chunking cuts the stream and its bundles where the cutting rule ends them |
| `LostExamples.MapIs` | rust/src/manifest.rs:240-265 | the frame map between the two tables keeps the shared frames and no other |
| `LostExamples.DeltaLists` | rust/src/server/builder.rs:318-380 | on tables of 3 to 30 files the delta stored lists one file and removes none |
| `LostExamples.CompactExample` | rust/src/server/builder.rs:1222-1368 | those tables are stored, read back and compacted onto, and the archive is not the tree |
| `FrameMaps.FrameMap` | rust/src/manifest.rs:240-265 | each slot names the last frame with that bundle and offset, or says there is none; fails exactly on a missing bundle or too many frames |
| `FrameMaps.MapKeepsBytes` | rust/src/manifest.rs:236-265 | the map sends a frame only to one with the same bytes, empty ones included |
| `FrameMaps.ComposeKeepsBytes` | rust/src/manifest.rs:268-279 | so does any composition, which never fails |
| `FrameMaps.TakesBytes` | rust/src/archive.rs:791-906 | a frame of an archive is empty exactly when its bundle is: an empty frame is alone in it |
| `FrameMaps.MovedReadsSame` | rust/src/manifest.rs:298-314 | a fragment moved by such a map reads the same bytes |
| `FilesResults.LoadMetadata` | rust/src/server/builder.rs:270-284 | gives the stored table with its delta applied, or nothing |
| `FilesResults.StoreTable` | rust/src/server/builder.rs:318-380 | what is stored reads back as the table, or in the order of the delta; it is a delta exactly when the base can be read and is valid, the frame maps exist and the delta is small, and then it is the one over the composed map |
| `FilesResults.StoredServes` | rust/src/server/builder.rs:1318-1340 | any sound archive stored either way serves exactly its tree |
| `FilesResults.StoredRecovers` | rust/src/server/builder.rs:318-380 | a packed archive stored either way can be compacted onto if and only if its table is stored whole or the delta's order keeps the tree's stream |
| `FilesResults.BuildFilesResult` | rust/src/server/builder.rs:1222-1368 | on any result that reads back as a tree: each build serves exactly its tree unless it is compacted onto an archive whose order was lost; a tail always does; a packed build does exactly when its frames hold the tree's stream, and can then be compacted onto exactly when its table keeps it |
| `FilesResults.EveryChain` | rust/src/server/builder.rs:1222-1368 | over a chain of any length every result serves its own tree as long as no compaction starts from a packed build whose table lost its stream; tails on such a build do |
| `FilesResults.CheckoutResult` | rust/src/extract.rs:374-735 | checking a served result out writes exactly the tree |
| `HeadPacks.Partition` | rust/src/pack.rs:308-342 | the batches are the list in order, each within the target or one object, and greedy; only a 64-bit total can stop it |
| `HeadPacks.BuildPacksFromOids` | rust/src/pack.rs:308-345 | disjoint packs with exactly the listed objects |
| `HeadPacks.HeadStore.Cold` | rust/src/pack.rs:43-53 | the base holds exactly the closure |
| `HeadPacks.HeadStore.AddLevel` | rust/src/pack.rs:73-88 | the level is exactly what the closure has and the packs lack; packs stay disjoint and cover the closure |
| `HeadPacks.HeadStore.Rebase` | rust/src/pack.rs:100-132 | exactly the base packs with few dead bytes are kept, the rest of the closure is packed again; disjoint and complete |
| `HeadPacks.KeptOk` | rust/src/pack.rs:112-125 | no kept pack is dead for more than one byte in ten |
| `HeadCheckouts.BlobPathMap` | rust/src/extract.rs:740-750 | each blob id leads to the paths of the files with it, in table order |
| `HeadCheckouts.ReadObject` | rust/src/extract.rs:807-843 | reads one entry's object and length, for every entry it starts with |
| `HeadCheckouts.ExtractBlobs` | rust/src/extract.rs:792-885 | from a pack of given objects, writes each blob to each of its paths |
| `HeadCheckouts.HeadWritesOnce` | rust/src/extract.rs:848-880 | the objects of disjoint packs that hold the closure call for each file of the table exactly once, and for nothing else |
| `HeadCheckouts.ExtractAll` | rust/src/client/install.rs:1468-1492 | pack by pack, what is written is what all the packs' objects call for |
| `HeadCheckouts.CheckoutHead` | rust/src/client/install.rs:1265-1500 | from the Head packs, in any order, each file of the table is written exactly once with its blob's bytes, and nothing else is |
| `Histories.LevelsComplete` | rust/src/pack.rs:255-262 | the levels hold everything the newest tip reaches |
| `Histories.LeastPair` | rust/src/pack.rs:271-280 | the first adjacent pair of least size |
| `Histories.MergeKeeps` | rust/src/pack.rs:281-299 | a merge keeps every range covered and the newest tip |
| `Histories.CompactLevels` | rust/src/pack.rs:261-301 | ends with at most `max(1, max_levels)` levels, or the input unchanged; every step merges a least pair |
| `Histories.SealAndCompact` | rust/src/server/builder.rs:195-262 | after a Full build the levels hold everything the commit reaches |
| `SidePacks.LayerCompletes` | rust/src/branches.rs:167-206 | a layer on layers that complete the old tips completes the new ones |
| `SidePacks.WholeSidePack` | rust/src/server/refs.rs:458-466 | one layer, or none, that completes every side tip against the default branch |
| `SidePacks.Publish` | rust/src/server/refs.rs:351-423 | what is published completes every side tip, in at most eight layers, against a base in the default branch's history |
| `SidePacks.CloneComplete` | rust/src/branches.rs:125-137 | a clone with the default branch and the layers has everything each branch and tag reaches |
| `Zlib.Adler32` | rust/src/tags.rs:485-496 | one reduction per 5552 bytes gives the per-byte sums of section 8.2 of RFC 1950, without leaving 32 bits |
| `Zlib.StoredZlib` | rust/src/tags.rs:473-497 | writes the stream of stored blocks |
| `Zlib.BlocksRoundTrip` | rust/src/tags.rs:475-484 | decoding by section 3.2.4 of RFC 1951 gives the data and stops at its end |
| `Zlib.ZlibRoundTrip` | rust/src/tags.rs:473-497 | so does decoding the whole stream by section 2.2 of RFC 1950, for every length |
| `PackHeaders.WriteHeader` | rust/src/tags.rs:417-426 | writes the entry header |
| `PackHeaders.ParseHeader` | rust/src/extract.rs:899-929 | succeeds exactly on a header whose size fits 64 bits and gives its type, exact size and length |
| `PackHeaders.HeaderReads` | rust/src/tags.rs:417-426 | a header of any 64-bit size is read back without losing bits, whatever follows |
| `PackFiles.WriteFanout` | rust/src/tags.rs:437-445 | entry `b` counts the ids with a first byte of at most `b` |
| `PackFiles.WriteEntries` | rust/src/tags.rs:411-430 | the header and the entries, with each entry's offset and checksum |
| `PackFiles.SplitOffsets` | rust/src/tags.rs:452-465 | small offsets as they are, large ones as their place in the large table |
| `PackFiles.WritePack` | rust/src/tags.rs:405-470 | writes the pack and its idx; fails exactly on too many objects |
| `PackIndexes.IdsRead` | rust/src/pack.rs:414-426 | the ids are read back from the idx |
| `PackIndexes.OffsetRead` | rust/src/pack.rs:385-399 | what the reader makes of each offset word, with the large table |
| `PackIndexes.OffsetsReadBack` | rust/src/tags.rs:452-465 | every offset is read back exactly when at most 2^31 of them are large |
| `PackIndexes.SizesFrom` | rust/src/pack.rs:400-411 | each size is the distance to the next offset or the end, for offsets in any order; together from the first offset to the end |
| `PackIndexes.IdxObjectSizes` | rust/src/pack.rs:376-412 | the ids with those sizes; fails exactly when the idx cannot be read or an offset is past the checksum |
| `PackIndexes.SizeIsLength` | rust/src/pack.rs:400-411 | by a written pack's offsets an object's size is exactly its entry's length |
| `PackIndexes.SizesSum` | rust/src/pack.rs:373-376 | the entries' lengths add up to the pack's length minus 32 |
| `PackIndexes.WrittenSizes` | rust/src/pack.rs:376-412 | on a written pack and idx with at most 2^31 large offsets the sizes read are the ids with their entries' lengths, and add up to the pack's length minus 32 |
| `PackIndexes.PackReadsBack` | rust/src/tags.rs:405-470 | ids, offsets, headers and contents of a written pack are read back |
| `PinProtocol.Pins.TryPin` | rust/src/pins.rs:35-44 | counts a pin unless the artifact is being deleted |
| `PinProtocol.Pins.Unpin` | rust/src/pins.rs:46-54 | uncounts a pin and forgets the artifact at zero |
| `PinProtocol.Pins.BeginDelete` | rust/src/pins.rs:59-68 | starts exactly when the artifact is neither pinned nor being deleted |
| `PinProtocol.Pins.EndDelete` | rust/src/pins.rs:77-87 | the artifact is no longer being deleted |
| `PinProtocol.Perform` | rust/src/pins.rs:35-87 | the calls on the shared record make it the next state's in every step |
| `PinProtocol.PerformAll` | rust/src/pins.rs:35-87 | over a whole run the shared record is the protocol's state |
| `PinProtocol.StepKeeps` | rust/src/pins.rs:35-128 | every step of builds, pins, the store and deletions keeps the invariant |
| `PinProtocol.ReliesKept` | rust/src/cas.rs:198-223 | what a build found or installed after pinning stays stored until it releases its pins |
| `PinProtocol.PinsProtect` | rust/src/pins.rs:35-128 | in every run nothing is both pinned and being deleted, counts are the builds that hold, and a parked pin has a wake-up to come |
| `ReaperProtocol.NoneRunning` | rust/src/client/staging.rs:341-377 | when the last drain finds nothing pending no worker runs |
| `ReaperProtocol.Cleanup.GuardFinished` | rust/src/client/staging.rs:324-328 | one guard less and a wake-up |
| `ReaperProtocol.Cleanup.Push` | rust/src/client/staging.rs:330-337 | one handle more and a wake-up |
| `ReaperProtocol.Cleanup.TakePending` | rust/src/client/staging.rs:344-352 | every pending handle is taken |
| `ReaperProtocol.Perform` | rust/src/client/staging.rs:319-352 | the calls on the shared record make it the next state's in every step |
| `ReaperProtocol.PerformBoth` | rust/src/client/staging.rs:320-342 | ending a guard, leaving a handle and closing are each their own step and then the wake-up |
| `ReaperProtocol.PerformAll` | rust/src/client/staging.rs:319-352 | over a whole run the shared record is the protocol's state |
| `ReaperProtocol.StepKeeps` | rust/src/client/staging.rs:319-424 | every step of workers, guards, notifications and the reaper keeps the invariant |
| `ReaperProtocol.ReaperSafe` | rust/src/client/staging.rs:275-283 | in every run staging is removed only after every guarded worker ended and none can start, and the reaper is never parked without a wake-up to come |
| `CancelProtocol.SignalsAreSafe` | rust/src/cancel.rs:67-90 | a step signals only groups led by the build's own unreaped children |
| `CancelProtocol.StepKeeps` | rust/src/cancel.rs:170-222 | every step of registration, waiting, cancelling and reaping keeps the invariant, with ids reused |
| `CancelProtocol.CancelSafe` | rust/src/cancel.rs:67-90 | in every run no reaped or foreign group is signalled, and once the first cancel is complete every registered child has been |
| `Downloads.Received.WriteBody` | rust/src/client/download.rs:733-748 | the body is appended, or stopped where it passes the promised length |
| `Downloads.Received.Finish` | rust/src/client/download.rs:249-266 | succeeds exactly on the promised length and the hash, and gives the bytes received |
| `Downloads.Received.Attempt` | rust/src/client/download.rs:695-749 | the remaining length never underflows, whatever the server sends; from an honest server what is received stays the artifact's first bytes, and all of it when complete |
| `Downloads.OutputUrls.RefreshUrl` | rust/src/client/download.rs:123-159 | each generation is refreshed at most once and the output's identity never changes |
| `Downloads.PartsTile` | rust/src/client/download.rs:579-580 | the parts tile the artifact, none longer than the part size |
| `Downloads.DownloadRange` | rust/src/client/download.rs:593-621 | from an honest server, exactly the range's bytes, over any retries and refreshes |
| `Downloads.DownloadRanges` | rust/src/client/download.rs:570-590 | the parts in order are the artifact |
| `Downloads.DownloadWhole` | rust/src/client/download.rs:505-535 | from an honest server, resuming and refreshing gives the whole artifact, or its first bytes and a failure |
| `Downloads.Download` | rust/src/client/download.rs:474-541 | what is returned has the promised length and hash; from an honest server it is the artifact |

## Left out

- The reader and compressor threads of `stream_frames`, its channels and its read window: only their result, frames in order, is modelled.
- Widths: counts and lengths are checked against their fields where the source checks them. Not modelled are a renumbered frame index past 32 bits, `dead * 10` and sums of level bytes past 64 bits, and a part's end computed past 64 bits (`Downloads.PartsTile` bounds it by the length plus one part).
- `Manifests.ValidateGeometry`: the path check is a parameter, and the source interleaves it with the others; the verdict is the same.
- `Extracts.Writer.TakeFragment`: a turn is one step under the lock; the source slices the bytes before taking it and checks and writes a finished file after releasing it. What a turn that fails leaves behind is not modelled (the source keeps the filled slot, or has removed the file): the whole extraction fails then.
- `FilesResults.StoreTable`: whether the stores can be read and whether the delta is small enough are inputs; the sizes of the encoded table and delta are not computed.
- `LostOrders.CompactLost`: speaks of the archive once it is built; a 32-bit limit or bytes that cannot be read stop it like any other build.
- `Deltas.Apply`: protobuf encoding and zstd of the stored delta are left out.
- `HeadPacks.HeadStore.AddLevel`: an unreadable idx, which makes the server pack a full base, is the caller's choice of `Cold`.
- `HeadCheckouts.ExtractAll`: the packs are taken one after the other; the source parses several at once.
- `HeadCheckouts.ExtractBlobs`: writing in batches to disk is left out; inflating is a function that gives a stream's content and length.
- `Histories.LeastPair`: least only while the sums of two levels fit 64 bits.
- `Downloads.DownloadRanges`: the parts are fetched one after the other; the source has several in flight and takes them in order.
- `Downloads.Download`: the local cache, progress counts and backoff delays are left out.
- `ReaperProtocol.ReaperSafe`: git child processes, which do not register a guard, and guards handed from one owner to another are left out.
- `CancelProtocol.CancelSafe`: timeouts and stop checks are the watchdog's choice of when to signal.
- `PinProtocol.PinsProtect`: damaged objects and trimming of the local cache are left out.
- Tag chains (`check`), ref listings, manifests and their hashes: easy beside the rest.
- Object walks, fsync, renames, file modes on disk, authentication, configuration, metrics and the command line.
