/** Frames go into download bundles, and bundles of the base that hold the same
    frames are reused whole (rust/src/archive.rs, `build_frame` and `Bundler`). */
module Bundlers {
  import opened Clonepack
  import opened Seqs
  import opened Grouping
  import opened Archives
  import opened BaseIndexes

  /** A frame on its way to a bundle. Either `bytes` has its compressed form, or
      `baseFrame` says which frame of the index to read it from. */
  datatype BuiltFrame = BuiltFrame(frame: ArchiveFrame, bytes: Option<Bytes>, baseFrame: Option<nat>)

  /** The local copies of base bundles, which may be damaged, and storage. */
  datatype Stores = Stores(local: map<Digest, Bytes>, remote: Option<map<Digest, Bytes>>)

  function GetRange(objects: map<Digest, Bytes>, bundle: Digest, offset: nat, len: nat): Option<Bytes> {
    if bundle in objects && offset + len <= |objects[bundle]|
    then Some(objects[bundle][offset..offset + len])
    else None
  }

  ghost predicate SlicesKnown(env: Env, objects: map<Digest, Bytes>) {
    forall d, i: nat, j: nat :: d in objects && i <= j <= |objects[d]| ==> objects[d][i..j] in env.known
  }

  ghost predicate StoresKnown(env: Env, stores: Stores) {
    SlicesKnown(env, stores.local) && (stores.remote.Some? ==> SlicesKnown(env, stores.remote.value))
  }

  predicate Matches(env: Env, data: Bytes, frame: ArchiveFrame) {
    |data| == frame.compressedLen && env.hash(data) == frame.chunkHash
  }

  /** Try the local copy of frame `k`, then the other store; bytes of another length
      or hash do not count. */
  function ReadFrame(env: Env, ix: BaseIndex, stores: Stores, k: nat): Result<Bytes>
    requires k < |ix.frames| == |ix.places|
  {
    var frame, place := ix.frames[k], ix.places[k];
    var data := GetRange(stores.local, place.bundle, place.offset, frame.compressedLen);
    if data.Some? && Matches(env, data.value, frame) then Ok(data.value)
    else if stores.remote.None? then Err(Unreadable)
    else
      var data := GetRange(stores.remote.value, place.bundle, place.offset, frame.compressedLen);
      if data.Some? && Matches(env, data.value, frame) then Ok(data.value) else Err(Unreadable)
  }

  lemma MatchExact(env: Env, objects: map<Digest, Bytes>, place: Place, frame: ArchiveFrame)
    requires Lawful(env) && SlicesKnown(env, objects) && FrameOk(env, frame)
    ensures var data := GetRange(objects, place.bundle, place.offset, frame.compressedLen);
      data.Some? && Matches(env, data.value, frame) ==> data.value == Comp(env, frame)
  {
    var data := GetRange(objects, place.bundle, place.offset, frame.compressedLen);
    if data.Some? && Matches(env, data.value, frame) {
      NamedKnown(env, data.value);
    }
  }

  /** A frame read back is the frame, whatever the stores hold. */
  lemma ReadFrameExact(env: Env, ix: BaseIndex, stores: Stores, k: nat)
    requires Lawful(env) && StoresKnown(env, stores)
    requires k < |ix.frames| == |ix.places| && FrameOk(env, ix.frames[k])
    ensures var r := ReadFrame(env, ix, stores, k);
      r == Ok(Comp(env, ix.frames[k])) || r == Err(Unreadable)
  {
    MatchExact(env, stores.local, ix.places[k], ix.frames[k]);
    if stores.remote.Some? {
      MatchExact(env, stores.remote.value, ix.places[k], ix.frames[k]);
    }
    hide Lawful, SlicesKnown, FrameOk, Matches, GetRange, Comp;
  }

  ghost predicate BaseOk(env: Env, base: Option<BaseIndex>) {
    base.Some? ==> FramesIndexed(env, base.value)
  }

  /** The frame is right and its bytes are at hand or in the base. */
  ghost predicate Genuine(env: Env, base: Option<BaseIndex>, b: BuiltFrame) {
    && FrameOk(env, b.frame)
    && match b.bytes
       case Some(x) => x == Comp(env, b.frame)
       case None =>
         && base.Some? && b.baseFrame.Some? && b.baseFrame.value < |base.value.frames|
         && base.value.frames[b.baseFrame.value].chunkHash == b.frame.chunkHash
  }

  /** The built frame of `raw`: found in the index under its hash, or else zipped. */
  function BuildFrame(env: Env, raw: Bytes, base: Option<BaseIndex>): BuiltFrame
    requires base.Some? ==> ByRawOk(base.value.byRaw, base.value.frames)
  {
    var rawHash := env.hash(raw);
    if base.Some? && rawHash in base.value.byRaw then
      var k := base.value.byRaw[rawHash];
      var frame := base.value.frames[k];
      BuiltFrame(ArchiveFrame(rawHash, frame.chunkHash, frame.compressedLen, |raw|), None, Some(k))
    else
      var bytes := ZipFrame(env, raw);
      BuiltFrame(ArchiveFrame(rawHash, env.hash(bytes), |bytes|, |raw|), Some(bytes), None)
  }

  lemma BuildFrameGenuine(env: Env, raw: Bytes, base: Option<BaseIndex>)
    requires Lawful(env) && BaseOk(env, base)
    requires raw in env.known && ZipFrame(env, raw) in env.known
    ensures Genuine(env, base, BuildFrame(env, raw, base))
    ensures Raw(env, BuildFrame(env, raw, base).frame) == raw
  {
    var rawHash := env.hash(raw);
    if base.Some? && rawHash in base.value.byRaw {
      FoundGenuine(env, raw, base.value);
    } else {
      ZippedGenuine(env, raw);
    }
    hide Lawful, BaseOk, FrameOk, ByRawOk, Raw, Comp;
  }

  lemma FoundGenuine(env: Env, raw: Bytes, ix: BaseIndex)
    requires Lawful(env) && FramesIndexed(env, ix) && raw in env.known && env.hash(raw) in ix.byRaw
    ensures Genuine(env, Some(ix), BuildFrame(env, raw, Some(ix)))
    ensures Raw(env, BuildFrame(env, raw, Some(ix)).frame) == raw
  {
    NamedKnown(env, raw);
    assert FrameOk(env, ix.frames[ix.byRaw[env.hash(raw)]]);
  }

  lemma ZippedGenuine(env: Env, raw: Bytes)
    requires Lawful(env) && raw in env.known && ZipFrame(env, raw) in env.known
    ensures var bytes := ZipFrame(env, raw);
      var f := ArchiveFrame(env.hash(raw), env.hash(bytes), |bytes|, |raw|);
      FrameOk(env, f) && Raw(env, f) == raw && Comp(env, f) == bytes
  {
    NamedKnown(env, raw);
    NamedKnown(env, ZipFrame(env, raw));
  }

  function Frames(group: seq<BuiltFrame>): Group {
    seq(|group|, i requires 0 <= i < |group| => group[i].frame)
  }

  ghost predicate AllGenuine(env: Env, base: Option<BaseIndex>, group: seq<BuiltFrame>) {
    forall i :: 0 <= i < |group| ==> Genuine(env, base, group[i])
  }

  lemma GenuineFrames(env: Env, base: Option<BaseIndex>, group: seq<BuiltFrame>)
    requires AllGenuine(env, base, group)
    ensures FramesOk(env, Frames(group))
  {
    forall i | 0 <= i < |group| ensures FrameOk(env, Frames(group)[i]) {
      assert Genuine(env, base, group[i]);
    }
  }

  /** One frame's bytes: this build's, or read from the base. */
  function FrameBytes(env: Env, base: Option<BaseIndex>, stores: Stores, b: BuiltFrame): Result<Bytes> {
    match b.bytes
    case Some(x) => Ok(x)
    case None =>
      if base.Some? && b.baseFrame.Some? && b.baseFrame.value < |base.value.frames| == |base.value.places|
      then ReadFrame(env, base.value, stores, b.baseFrame.value)
      else Err(NoBytes)
  }

  lemma FrameBytesExact(env: Env, base: Option<BaseIndex>, stores: Stores, b: BuiltFrame)
    requires Lawful(env) && BaseOk(env, base) && StoresKnown(env, stores) && Genuine(env, base, b)
    ensures var r := FrameBytes(env, base, stores, b); r == Ok(Comp(env, b.frame)) || r == Err(Unreadable)
  {
    if b.bytes.None? {
      ReadFrameExact(env, base.value, stores, b.baseFrame.value);
    }
  }

  /** The name of the group's bundle, written out: its frames' bytes in a row. Only
      frames of the base that cannot be read stop it; the length always agrees. */
  method WriteGroup(env: Env, base: Option<BaseIndex>, stores: Stores, group: seq<BuiltFrame>, groupLen: nat)
    returns (r: Result<Digest>)
    requires Lawful(env) && BaseOk(env, base) && StoresKnown(env, stores)
    requires AllGenuine(env, base, group) && groupLen == GroupLen(Frames(group))
    ensures r == Ok(env.hash(Body(env, Frames(group)))) || r == Err(Unreadable)
  {
    hide Lawful, BaseOk, StoresKnown, Genuine, FrameBytes, GroupLen, FrameOk;
    var written: Bytes := [];
    for i := 0 to |group|
      invariant written == Body(env, Frames(group)[..i])
    {
      FrameBytesExact(env, base, stores, group[i]);
      BodyNext(env, Frames(group), i);
      var bytes := FrameBytes(env, base, stores, group[i]);
      if bytes.Err? {
        return Err(bytes.error);
      }
      written := written + bytes.value;
    }
    assert Frames(group)[..|group|] == Frames(group);
    GenuineFrames(env, base, group);
    BodyLen(env, Frames(group));
    if |written| != groupLen {
      return Err(BundleLength);
    }
    return Ok(env.hash(written));
  }

  lemma BodyNext(env: Env, g: Group, i: nat)
    requires i < |g|
    ensures Body(env, g[..i + 1]) == Body(env, g[..i]) + Comp(env, g[i])
  {
    ConcatSnoc(Comps(env, g[..i]), Comp(env, g[i]));
    assert Comps(env, g[..i + 1]) == Comps(env, g[..i]) + [Comp(env, g[i])];
  }

  /** How many frames and bundles are new and how many are the base's. */
  datatype Reuse = Reuse(framesBuilt: nat, framesReused: nat, bundlesBuilt: nat, bundlesReused: nat)

  /** What the bundler has put out: bundles, those it wrote, and the frame tables. */
  datatype Out = Out(bundles: seq<Digest>, newBundles: seq<Digest>, infos: seq<FrameInfo>, frames: seq<ArchiveFrame>,
                     reuse: Reuse)

  const NoOut := Out([], [], [], [], Reuse(0, 0, 0, 0))

  /** The base's bundle with these frames, by its key. */
  function FindBundle(base: Option<BaseIndex>, g: Group): Option<Digest> {
    if base.Some? && Key(g) in base.value.bundles then Some(base.value.bundles[Key(g)]) else None
  }

  /** The hashes of the bundles the base lacks. */
  ghost function NewOnes(env: Env, base: Option<BaseIndex>, gs: seq<Group>): seq<Digest> {
    if gs == [] then [] else
      NewOnes(env, base, gs[..|gs| - 1])
      + if FindBundle(base, gs[|gs| - 1]).Some? then [] else [env.hash(Body(env, gs[|gs| - 1]))]
  }

  /** The number of frames whose bytes this build made. */
  function Made(group: seq<BuiltFrame>): (n: nat)
    ensures n <= |group|
  {
    if group == [] then 0 else Made(group[..|group| - 1]) + if group[|group| - 1].bytes.Some? then 1 else 0
  }

  /** The tables with the rows of a bundle's frames. */
  function AddRows(out: Out, group: seq<BuiltFrame>, index: nat): Out {
    Out(out.bundles, out.newBundles,
        out.infos + GroupInfos(Frames(group), index), out.frames + Frames(group),
        Reuse(out.reuse.framesBuilt + Made(group), out.reuse.framesReused + (|group| - Made(group)),
              out.reuse.bundlesBuilt, out.reuse.bundlesReused))
  }

  /** One more bundle, reused or new. */
  function AddBundle(out: Out, hash: Digest, reused: bool): Out {
    Out(out.bundles + [hash], if reused then out.newBundles else out.newBundles + [hash], out.infos, out.frames,
        if reused then out.reuse.(bundlesReused := out.reuse.bundlesReused + 1)
        else out.reuse.(bundlesBuilt := out.reuse.bundlesBuilt + 1))
  }

  /** The frames' lengths fit their fields. */
  ghost predicate FramesFit(fs: seq<ArchiveFrame>) {
    forall k :: 0 <= k < |fs| ==> fs[k].compressedLen <= U32_MAX && fs[k].rawLen <= U32_MAX
  }

  /** The bundles and tables put out are those of the closed groups `gs`. */
  ghost predicate TablesOk(env: Env, out: Out, gs: seq<Group>) {
    && out.frames == Concat(gs) && FramesOk(env, out.frames) && FramesFit(out.frames)
    && out.infos == AllInfos(gs)
    && |out.bundles| == |gs|
    && (forall g :: 0 <= g < |gs| ==> gs[g] != [] && out.bundles[g] == env.hash(Body(env, gs[g])))
  }

  /** The new bundles are those the base lacks, and each frame and bundle counts once. */
  ghost predicate CountsOk(env: Env, base: Option<BaseIndex>, out: Out, gs: seq<Group>) {
    && out.newBundles == NewOnes(env, base, gs)
    && out.reuse.bundlesBuilt == |out.newBundles| && out.reuse.bundlesBuilt + out.reuse.bundlesReused == |gs|
    && out.reuse.framesBuilt + out.reuse.framesReused == |out.frames|
  }

  ghost predicate OutOk(env: Env, base: Option<BaseIndex>, out: Out, gs: seq<Group>) {
    TablesOk(env, out, gs) && CountsOk(env, base, out, gs)
  }

  ghost predicate GroupOk(env: Env, base: Option<BaseIndex>, group: seq<BuiltFrame>, groupLen: nat, open: Group) {
    && Frames(group) == open && groupLen == GroupLen(open)
    && AllGenuine(env, base, group)
  }

  lemma NoRows(group: seq<BuiltFrame>, index: nat)
    ensures Made(group[..0]) == 0 && GroupLen(Frames(group)[..0]) == 0
  {}

  /** Add the rows of a bundle's frames to the tables. */
  method PlaceGroup(group: seq<BuiltFrame>, out: Out, index: nat) returns (r: Result<Out>)
    ensures r == Ok(AddRows(out, group, index)) || r == Err(Limit)
    ensures r.Ok? <==> FramesFit(Frames(group))
  {
    hide GroupLen, Made;
    ghost var fs := Frames(group);
    NoRows(group, index);
    ghost var rows := GroupInfos(fs, index);
    var infos, frames, built: nat, offset: nat := out.infos, out.frames, 0, 0;
    for i := 0 to |group|
      invariant infos == out.infos + rows[..i]
      invariant frames == out.frames + fs[..i]
      invariant built == Made(group[..i])
      invariant offset == GroupLen(fs[..i])
      invariant FramesFit(fs[..i])
    {
      var frame := group[i].frame;
      assert frame == fs[i];
      if frame.compressedLen > U32_MAX || frame.rawLen > U32_MAX {
        return Err(Limit);
      }
      MadeNext(group, i);
      GroupLenNext(fs, i);
      if group[i].bytes.Some? {
        built := built + 1;
      }
      infos := infos + [FrameInfo(index, offset, frame.compressedLen, frame.rawLen)];
      frames := frames + [frame];
      offset := offset + frame.compressedLen;
    }
    assert group[..|group|] == group && fs[..|fs|] == fs && rows[..|fs|] == rows;
    return Ok(Out(out.bundles, out.newBundles, infos, frames,
                  Reuse(out.reuse.framesBuilt + built, out.reuse.framesReused + (|group| - built),
                        out.reuse.bundlesBuilt, out.reuse.bundlesReused)));
  }

  lemma MadeNext(group: seq<BuiltFrame>, i: nat)
    requires i < |group|
    ensures Made(group[..i + 1]) == Made(group[..i]) + if group[i].bytes.Some? then 1 else 0
  {
    assert group[..i + 1][..i] == group[..i];
  }

  lemma MadeSnoc(group: seq<BuiltFrame>, frame: BuiltFrame)
    ensures Made(group + [frame]) == Made(group) + if frame.bytes.Some? then 1 else 0
  {
    assert (group + [frame])[..|group|] == group;
  }

  lemma TablesNext(env: Env, base: Option<BaseIndex>, out: Out, gs: seq<Group>, group: seq<BuiltFrame>, reused: bool)
    requires TablesOk(env, out, gs) && AllGenuine(env, base, group) && group != [] && FramesFit(Frames(group))
    ensures TablesOk(env, AddBundle(AddRows(out, group, |gs|), env.hash(Body(env, Frames(group))), reused),
      gs + [Frames(group)])
  {
    hide FrameOk, Body, GroupInfos, Made, AllGenuine, Genuine;
    var fs := Frames(group);
    ConcatSnoc(gs, fs);
    GenuineFrames(env, base, group);
    assert (gs + [fs])[..|gs|] == gs;
  }

  lemma CountsNext(env: Env, base: Option<BaseIndex>, out: Out, gs: seq<Group>, group: seq<BuiltFrame>)
    requires CountsOk(env, base, out, gs)
    ensures var fs := Frames(group);
      CountsOk(env, base, AddBundle(AddRows(out, group, |gs|), env.hash(Body(env, fs)), FindBundle(base, fs).Some?),
        gs + [fs])
  {
    hide Body, GroupInfos, FindBundle, Made;
    assert (gs + [Frames(group)])[..|gs|] == gs;
  }

  /** One closed group further. */
  lemma OutNext(env: Env, base: Option<BaseIndex>, out: Out, gs: seq<Group>, group: seq<BuiltFrame>)
    requires OutOk(env, base, out, gs) && AllGenuine(env, base, group) && group != [] && FramesFit(Frames(group))
    ensures var fs := Frames(group);
      OutOk(env, base, AddBundle(AddRows(out, group, |gs|), env.hash(Body(env, fs)), FindBundle(base, fs).Some?),
        gs + [fs])
  {
    TablesNext(env, base, out, gs, group, FindBundle(base, Frames(group)).Some?);
    CountsNext(env, base, out, gs, group);
    hide AddBundle, AddRows, TablesOk, CountsOk, AllGenuine;
  }

  /** A base bundle found by its key is the one this build would write. */
  lemma FoundExact(env: Env, base: Option<BaseIndex>, group: seq<BuiltFrame>)
    requires BaseOk(env, base) && AllGenuine(env, base, group)
    ensures var found := FindBundle(base, Frames(group)); found.Some? ==>
      found.value == env.hash(Body(env, Frames(group)))
  {
    GenuineFrames(env, base, group);
  }

  /** Takes frames one by one and puts out bundles; `cuts` is the specification it
      follows, frame by frame. */
  class Bundler {
    const env: Env
    const stores: Stores
    const base: Option<BaseIndex>
    const min: nat
    const max: nat
    var group: seq<BuiltFrame>
    var groupLen: nat
    var out: Out
    ghost var cuts: Cuts
    ghost var made: nat  // frames pushed with bytes of their own

    /** The open group and the tables are those of `cuts`. */
    ghost predicate Valid()
      reads this
    {
      && Lawful(env) && BaseOk(env, base) && StoresKnown(env, stores)
      && OutOk(env, base, out, cuts.closed)
      && GroupOk(env, base, group, groupLen, cuts.open)
      && made == out.reuse.framesBuilt + Made(group)
    }

    constructor (env: Env, stores: Stores, base: Option<BaseIndex>, target: nat)
      requires Lawful(env) && BaseOk(env, base) && StoresKnown(env, stores)
      ensures Valid() && cuts == NoCuts && made == 0
      ensures this.env == env && this.base == base && this.stores == stores
      ensures min == MinLen(target) && max == MaxLen(target)
    {
      hide OutOk, GroupOk, Lawful, BaseOk, StoresKnown;
      NothingYet(env, base);
      this.env, this.stores, this.base := env, stores, base;
      min, max := MinLen(target), MaxLen(target);
      group, groupLen, out, cuts, made := [], 0, NoOut, NoCuts, 0;
    }

    /** Add a frame: closes the open group first when the frame would take it
        past `max`, and after it when it may end there. */
    method Push(frame: BuiltFrame) returns (r: Result<()>)
      requires Valid() && Genuine(env, base, frame)
      modifies this
      ensures r.Ok? ==> Valid() && cuts == Grouping.Push(old(cuts), frame.frame, min, max)
      ensures r.Ok? ==> made == old(made) + if frame.bytes.Some? then 1 else 0
      ensures r.Err? ==> r.error in {Limit, Unreadable}
    {
      hide Valid, GroupLen, Genuine;
      r := MakeRoom(frame.frame);
      if r.Err? {
        return;
      }
      Append(frame);
      if groupLen >= max || (groupLen >= min && CutsAfter(frame.frame.chunkHash)) {
        r := Close();
      }
    }

    /** Close the open group when the frame would take it past `max`. */
    method MakeRoom(frame: ArchiveFrame) returns (r: Result<()>)
      requires Valid()
      modifies this
      ensures r.Ok? ==> Valid() && cuts == Room(old(cuts), frame, max) && made == old(made)
      ensures r.Err? ==> r.error in {Limit, Unreadable}
    {
      hide OutOk, GroupOk, Lawful, BaseOk, StoresKnown, GroupLen, Made;
      GroupEmpty(env, base, group, groupLen, cuts.open);
      if |group| != 0 && groupLen + frame.compressedLen > max {
        r := Close();
      } else {
        r := Ok(());
      }
    }

    /** Put the frame in the open group. */
    method Append(frame: BuiltFrame)
      requires Valid() && Genuine(env, base, frame)
      modifies this
      ensures Valid() && cuts == Cuts(old(cuts).closed, old(cuts).open + [frame.frame])
      ensures groupLen == GroupLen(old(cuts).open) + frame.frame.compressedLen
      ensures made == old(made) + if frame.bytes.Some? then 1 else 0
    {
      hide OutOk, GroupOk, Lawful, BaseOk, StoresKnown, GroupLen, Genuine, Made;
      GroupEmpty(env, base, group, groupLen, cuts.open);
      GroupNext(env, base, group, groupLen, cuts.open, frame);
      MadeSnoc(group, frame);
      group := group + [frame];
      groupLen := groupLen + frame.frame.compressedLen;
      made := made + if frame.bytes.Some? then 1 else 0;
      cuts := Cuts(cuts.closed, cuts.open + [frame.frame]);
    }

    /** Close the open group: take the base's bundle when it holds these frames,
        otherwise write one. */
    method Close() returns (r: Result<()>)
      requires Valid()
      modifies this
      ensures r.Ok? ==> Valid() && cuts == Grouping.Close(old(cuts)) && made == old(made)
      ensures r.Err? ==> r.error in {Limit, Unreadable}
    {
      hide OutOk, Lawful, BaseOk, StoresKnown, AllGenuine, Frames, GroupLen, AddRows, FindBundle, FramesFit;
      if |group| == 0 {
        GroupEmpty(env, base, group, groupLen, cuts.open);
        return Ok(());
      }
      if |out.bundles| > U32_MAX {
        return Err(Limit);
      }
      FoundExact(env, base, group);
      OutBundles(env, base, out, cuts.closed);
      var found := FindBundle(base, Frames(group));
      var hash;
      if found.Some? {
        hash := found.value;
      } else {
        var written := WriteGroup(env, base, stores, group, groupLen);
        if written.Err? {
          return Err(written.error);
        }
        hash := written.value;
      }
      var placed := PlaceGroup(group, out, |out.bundles|);
      if placed.Err? {
        return Err(placed.error);
      }
      OutNext(env, base, out, cuts.closed, group);
      GroupEmpty(env, base, group, groupLen, cuts.open);
      AddBuilt(out, group, |out.bundles|, hash, found.Some?);
      out := AddBundle(placed.value, hash, found.Some?);
      group := [];
      groupLen := 0;
      cuts := Grouping.Close(cuts);
      return Ok(());
    }
  }

  lemma AddBuilt(out: Out, group: seq<BuiltFrame>, index: nat, hash: Digest, reused: bool)
    ensures AddBundle(AddRows(out, group, index), hash, reused).reuse.framesBuilt == out.reuse.framesBuilt + Made(group)
  {}

  lemma NothingYet(env: Env, base: Option<BaseIndex>)
    ensures OutOk(env, base, NoOut, []) && GroupOk(env, base, [], 0, [])
  {}

  lemma OutBundles(env: Env, base: Option<BaseIndex>, out: Out, gs: seq<Group>)
    requires OutOk(env, base, out, gs)
    ensures |out.bundles| == |gs|
  {}

  lemma GroupEmpty(env: Env, base: Option<BaseIndex>, group: seq<BuiltFrame>, groupLen: nat, open: Group)
    requires GroupOk(env, base, group, groupLen, open)
    ensures (group == [] <==> open == []) && groupLen == GroupLen(open)
    ensures GroupOk(env, base, [], 0, [])
  {}

  /** A bundle may end from half the target, and ends at twice the target. */
  function MinLen(target: nat): nat {
    (if target > 2 then target else 2) / 2
  }

  function MaxLen(target: nat): nat {
    var twice := 2 * if target > 2 then target else 2;
    if twice <= U64_MAX then twice else U64_MAX
  }

  lemma GroupNext(env: Env, base: Option<BaseIndex>, group: seq<BuiltFrame>, groupLen: nat, open: Group,
                  frame: BuiltFrame)
    requires GroupOk(env, base, group, groupLen, open) && Genuine(env, base, frame)
    ensures GroupOk(env, base, group + [frame], groupLen + frame.frame.compressedLen, open + [frame.frame])
  {
    assert (open + [frame.frame])[..|open|] == open;
  }
}
