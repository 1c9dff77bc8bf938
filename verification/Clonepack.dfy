/** The records of the files table (rust/proto, rust/src/clonepack.rs) and the
    library functions a build relies on. */
module Clonepack {
  type Byte = b: int | 0 <= b < 256
  type Bytes = seq<Byte>

  /** A hash as its lower-case hex text. */
  type Digest = Bytes

  /** A git object id. */
  type Oid = Bytes

  const U32_MAX: nat := 0xffff_ffff
  const U64_MAX: nat := 0xffff_ffff_ffff_ffff
  const DIGEST_WIDTH: nat := 64

  datatype Option<+T> = None | Some(value: T)

  /** Why an operation failed. `Limit`: a count or length does not fit its
      field. `Unreadable`: neither store gave the bytes a hash names. The
      others are broken internal checks. */
  datatype Error =
    | Limit
    | Unreadable
    | NoFrames
    | NoBytes
    | BundleLength
    | GapLength
    | NotTiled
    | StreamLength
    | BadBase
    | NoFragments
    | BadGeometry
    | BadDelta
    | PastFrame
    | WrongBlob
    | NotPending
    | DuplicateFragment
    | MissingFragment

  datatype Result<+T> = Ok(value: T) | Err(error: Error)

  datatype Fragment = Fragment(frameIndex: nat, frameOffset: nat, rawLen: nat)

  datatype FrameInfo = FrameInfo(chunkIndex: nat, chunkOffset: nat, compressedLen: nat, rawLen: nat)

  datatype FileEntry = FileEntry(path: Bytes, mode: nat, blob: Oid, fragments: seq<Fragment>)

  datatype Metadata = Metadata(frames: seq<FrameInfo>, files: seq<FileEntry>, gitlinks: seq<Bytes>)

  /** A frame as a build records it for later builds. */
  datatype ArchiveFrame = ArchiveFrame(rawHash: Digest, chunkHash: Digest, compressedLen: nat, rawLen: nat)

  /** A file of a git tree. */
  datatype TreeFile = TreeFile(path: Bytes, oid: Oid, mode: nat)

  /** A build's frames, its files table and its download bundles. */
  datatype Archive = Archive(frames: seq<ArchiveFrame>, metadata: Metadata, bundles: seq<Digest>)

  /** Library code a build calls: SHA-256, zstd, content-defined chunking (as
      the lengths of the parts), the object database, and git's blob id.
      `known` are the byte strings whose SHA-256 names the builds compare, and
      `oneFrame` says that a byte string is one whole zstd frame. */
  datatype Env = Env(
    hash: Bytes -> Digest,
    zip: Bytes -> Bytes,
    unzip: (Bytes, nat) -> Option<Bytes>,
    cut: Bytes -> seq<nat>,
    blob: Oid -> Bytes,
    blobId: Bytes -> Oid,
    ghost known: iset<Bytes>,
    ghost oneFrame: Bytes -> bool)
}
