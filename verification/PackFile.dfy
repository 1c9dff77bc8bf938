/** A version 2 git pack of tag objects and its version 2 idx
    (rust/src/tags.rs, `pack`). */
module PackFiles {
  import opened Clonepack
  import opened Seqs
  import opened Words
  import opened Zlib
  import opened PackHeaders

  const TAG: Kind := 4
  const LARGE: nat := 0x8000_0000

  datatype Object = Object(id: Oid, data: Bytes)

  /** SHA-1 and CRC-32. */
  datatype Sums = Sums(sha1: Bytes -> Bytes, crc: Bytes -> nat)

  ghost predicate SumsOk(sums: Sums) {
    forall x :: |sums.sha1(x)| == 20 && sums.crc(x) <= U32_MAX
  }

  function Entry(o: Object): Bytes {
    Header(TAG, |o.data|) + Stored(o.data)
  }

  function Entries(objects: seq<Object>): seq<Bytes> {
    seq(|objects|, i requires 0 <= i < |objects| => Entry(objects[i]))
  }

  /** The signature, the version and the object count. */
  function PackHead(count: nat): Bytes {
    [80, 65, 67, 75] + ToBe(2, 4) + ToBe(count, 4)
  }

  function PackBody(objects: seq<Object>): Bytes {
    PackHead(|objects|) + Concat(Entries(objects))
  }

  function Pack(sums: Sums, objects: seq<Object>): Bytes {
    PackBody(objects) + sums.sha1(PackBody(objects))
  }

  /** Where each entry starts. */
  function Offsets(objects: seq<Object>): seq<nat> {
    seq(|objects|, i requires 0 <= i < |objects| => 12 + |Concat(Entries(objects)[..i])|)
  }

  function Crcs(sums: Sums, objects: seq<Object>): seq<nat> {
    seq<nat>(|objects|, i requires 0 <= i < |objects| => sums.crc(Entry(objects[i])))
  }

  function Ids(objects: seq<Object>): seq<Oid> {
    seq(|objects|, i requires 0 <= i < |objects| => objects[i].id)
  }

  /** How many ids have a first byte of at most `b`. */
  function Fan(ids: seq<Oid>, b: int): nat {
    if ids == [] then 0 else
      Fan(ids[..|ids| - 1], b) + if ids[|ids| - 1] != [] && ids[|ids| - 1][0] <= b then 1 else 0
  }

  function Fanout(ids: seq<Oid>): seq<Bytes> {
    seq(256, b requires 0 <= b < 256 => ToBe(Fan(ids, b), 4))
  }

  function Words4(ns: seq<nat>): seq<Bytes> {
    seq(|ns|, i requires 0 <= i < |ns| => ToBe(ns[i], 4))
  }

  function Words8(ns: seq<nat>): seq<Bytes> {
    seq(|ns|, i requires 0 <= i < |ns| => ToBe(ns[i], 8))
  }

  /** The offsets that do not fit 31 bits, in order. */
  function Larges(offsets: seq<nat>): seq<nat> {
    if offsets == [] then [] else
      var n := |offsets| - 1;
      Larges(offsets[..n]) + if offsets[n] >= LARGE then [offsets[n]] else []
  }

  /** `0x8000_0000 | n` for a 32-bit `n`. */
  function Flagged(n: nat): nat {
    if n < LARGE then LARGE + n else n
  }

  /** The offset itself, or the flag and its place in the large table. */
  function OffsetWord(offsets: seq<nat>, i: nat): nat
    requires i < |offsets|
  {
    if offsets[i] < LARGE then offsets[i] else Flagged(|Larges(offsets[..i])|)
  }

  function OffsetWords(offsets: seq<nat>): seq<nat> {
    seq(|offsets|, i requires 0 <= i < |offsets| => OffsetWord(offsets, i))
  }

  const IDX_MAGIC: Bytes := [0xff, 116, 79, 99, 0, 0, 0, 2]

  /** The idx's sections, up to its own checksum. */
  function Sections(ids: seq<Oid>, crcs: seq<nat>, offsets: seq<nat>, checksum: Bytes): seq<Bytes> {
    [IDX_MAGIC, Concat(Fanout(ids)), Concat(ids), Concat(Words4(crcs)),
     Concat(Words4(OffsetWords(offsets))), Concat(Words8(Larges(offsets))), checksum]
  }

  function Idx(sums: Sums, ids: seq<Oid>, crcs: seq<nat>, offsets: seq<nat>, checksum: Bytes): Bytes {
    var body := Concat(Sections(ids, crcs, offsets, checksum));
    body + sums.sha1(body)
  }

  method WriteEntries(sums: Sums, objects: seq<Object>) returns (out: Bytes, offsets: seq<nat>, crcs: seq<nat>)
    ensures out == PackBody(objects) && offsets == Offsets(objects) && crcs == Crcs(sums, objects)
  {
    hide Concat, Entry, ToBe, PackHead, Entries, PackBody, Header, Stored, PackPart;
    out := PackHead(|objects|);
    offsets, crcs := [], [];
    PartNone(objects);
    for i := 0 to |objects|
      invariant out == PackPart(objects, i)
      invariant offsets == Offsets(objects)[..i] && crcs == Crcs(sums, objects)[..i]
    {
      var start := |out|;
      var header := WriteHeader(TAG, |objects[i].data|);
      var body := StoredZlib(objects[i].data);
      PartNext(objects, i);
      EntryIs(objects[i]);
      out := out + header + body;
      assert out == PackPart(objects, i) + Entry(objects[i]);
      offsets, crcs := offsets + [start], crcs + [sums.crc(out[start..])];
    }
    PartAll(objects);
  }

  /** The pack's bytes up to entry `i`. */
  ghost function PackPart(objects: seq<Object>, i: nat): Bytes
    requires i <= |objects|
  {
    PackHead(|objects|) + Concat(Entries(objects)[..i])
  }

  lemma PartNone(objects: seq<Object>)
    ensures PackPart(objects, 0) == PackHead(|objects|)
  {
    NoParts<Byte>();
  }

  lemma PartNext(objects: seq<Object>, i: nat)
    requires i < |objects|
    ensures PackPart(objects, i + 1) == PackPart(objects, i) + Entry(objects[i])
    ensures |PackPart(objects, i)| == Offsets(objects)[i]
    ensures (PackPart(objects, i) + Entry(objects[i]))[|PackPart(objects, i)|..] == Entry(objects[i])
  {
    hide Concat, Entry, PackHead;
    HeadLength(|objects|);
    ConcatSnoc(Entries(objects)[..i], Entry(objects[i]));
    assert Entries(objects)[..i] + [Entry(objects[i])] == Entries(objects)[..i + 1];
  }

  lemma PartAll(objects: seq<Object>)
    ensures PackPart(objects, |objects|) == PackBody(objects)
  {
    assert Entries(objects)[..|objects|] == Entries(objects);
  }

  lemma EntryIs(o: Object)
    ensures Entry(o) == Header(TAG, |o.data|) + Stored(o.data)
  {}

  lemma NoParts<T>()
    ensures forall ss: seq<seq<T>> :: Concat(ss[..0]) == []
  {}

  lemma HeadLength(count: nat)
    ensures |PackHead(count)| == 12
  {
    BeLength(2, 4);
    BeLength(count, 4);
  }

  /** How many ids have each first byte. */
  ghost predicate AreCounts(counts: seq<nat>, ids: seq<Oid>) {
    |counts| == 256 && forall b :: 0 <= b < 256 ==> counts[b] == Fan(ids, b) - Fan(ids, b - 1)
  }

  lemma CountsNone(counts: seq<nat>, ids: seq<Oid>)
    requires |counts| == 256 && forall b :: 0 <= b < 256 ==> counts[b] == 0
    ensures AreCounts(counts, ids[..0])
  {}

  lemma CountsNext(counts: seq<nat>, ids: seq<Oid>, i: nat)
    requires i < |ids| && |ids[i]| == 20 && AreCounts(counts, ids[..i])
    ensures |counts| == 256 && AreCounts(counts[ids[i][0] := counts[ids[i][0]] + 1], ids[..i + 1])
  {
    hide Fan;
    var first := ids[i][0];
    var next := counts[first := counts[first] + 1];
    forall b | 0 <= b < 256 ensures next[b] == Fan(ids[..i + 1], b) - Fan(ids[..i + 1], b - 1) {
      FanNext(ids, i, b);
      FanNext(ids, i, b - 1);
    }
  }

  lemma FanNext(ids: seq<Oid>, i: nat, b: int)
    requires i < |ids| && ids[i] != []
    ensures Fan(ids[..i + 1], b) == Fan(ids[..i], b) + if ids[i][0] <= b then 1 else 0
  {
    assert ids[..i + 1][..i] == ids[..i];
  }

  /** The table's first `b` words. */
  ghost function FanoutPart(ids: seq<Oid>, b: nat): Bytes
    requires b <= 256
  {
    Concat(Fanout(ids)[..b])
  }

  lemma FanoutNone(ids: seq<Oid>)
    ensures FanoutPart(ids, 0) == [] && FanoutPart(ids, 256) == Concat(Fanout(ids)) && Fan(ids, -1) == 0
  {
    NoneBelow(ids);
    assert Fanout(ids)[..256] == Fanout(ids);
  }

  lemma FanoutNext(counts: seq<nat>, ids: seq<Oid>, b: nat)
    requires b < 256 && AreCounts(counts, ids)
    ensures |counts| == 256 && Fan(ids, b - 1) + counts[b] == Fan(ids, b)
    ensures FanoutPart(ids, b + 1) == FanoutPart(ids, b) + ToBe(Fan(ids, b), 4)
  {
    hide Concat, ToBe, Fan;
    ConcatSnoc(Fanout(ids)[..b], ToBe(Fan(ids, b), 4));
    assert Fanout(ids)[..b] + [ToBe(Fan(ids, b), 4)] == Fanout(ids)[..b + 1];
  }

  /** Count the first bytes, then add the counts up. */
  method WriteFanout(ids: seq<Oid>) returns (out: Bytes)
    requires forall i :: 0 <= i < |ids| ==> |ids[i]| == 20
    ensures out == Concat(Fanout(ids))
  {
    hide *;
    var counts := new nat[256](_ => 0);
    CountsNone(counts[..], ids);
    for i := 0 to |ids|
      invariant AreCounts(counts[..], ids[..i])
    {
      CountsNext(counts[..], ids, i);
      var first := ids[i][0];
      counts[first] := counts[first] + 1;
    }
    assert ids[..|ids|] == ids;
    out := [];
    var total: nat := 0;
    FanoutNone(ids);
    for b := 0 to 256
      invariant total == Fan(ids, b - 1) && out == FanoutPart(ids, b)
      invariant AreCounts(counts[..], ids)
    {
      FanoutNext(counts[..], ids, b);
      total := total + counts[b];
      out := out + ToBe(total, 4);
    }
  }

  lemma {:induction false} NoneBelow(ids: seq<Oid>)
    ensures Fan(ids, -1) == 0
  {
    if ids != [] {
      NoneBelow(ids[..|ids| - 1]);
    }
  }

  lemma {:induction false} AllUpTo255(ids: seq<Oid>)
    requires forall i :: 0 <= i < |ids| ==> |ids[i]| == 20
    ensures Fan(ids, 255) == |ids|
  {
    if ids != [] {
      AllUpTo255(ids[..|ids| - 1]);
    }
  }

  /** Write numbers of a fixed width. */
  method WriteWords4(ns: seq<nat>) returns (out: Bytes)
    ensures out == Concat(Words4(ns))
  {
    hide Concat, ToBe;
    out := [];
    NoParts<Byte>();
    for i := 0 to |ns|
      invariant out == Concat(Words4(ns)[..i])
    {
      ConcatSnoc(Words4(ns)[..i], ToBe(ns[i], 4));
      assert Words4(ns)[..i] + [ToBe(ns[i], 4)] == Words4(ns)[..i + 1];
      out := out + ToBe(ns[i], 4);
    }
    assert Words4(ns)[..|ns|] == Words4(ns);
  }

  method WriteWords8(ns: seq<nat>) returns (out: Bytes)
    ensures out == Concat(Words8(ns))
  {
    hide Concat, ToBe;
    out := [];
    NoParts<Byte>();
    for i := 0 to |ns|
      invariant out == Concat(Words8(ns)[..i])
    {
      ConcatSnoc(Words8(ns)[..i], ToBe(ns[i], 8));
      assert Words8(ns)[..i] + [ToBe(ns[i], 8)] == Words8(ns)[..i + 1];
      out := out + ToBe(ns[i], 8);
    }
    assert Words8(ns)[..|ns|] == Words8(ns);
  }

  method SplitOffsets(offsets: seq<nat>) returns (words: seq<nat>, large: seq<nat>)
    ensures words == OffsetWords(offsets) && large == Larges(offsets)
  {
    words, large := [], [];
    for i := 0 to |offsets|
      invariant words == OffsetWords(offsets)[..i] && large == Larges(offsets[..i])
    {
      assert offsets[..i + 1][..i] == offsets[..i];
      if offsets[i] < LARGE {
        words := words + [offsets[i]];
      } else {
        large := large + [offsets[i]];
        words := words + [Flagged(|large| - 1)];
      }
    }
    assert offsets[..|offsets|] == offsets;
  }

  /** The pack, its idx and its checksum. */
  method WritePack(sums: Sums, objects: seq<Object>) returns (r: Result<(Bytes, Bytes, Bytes)>)
    requires forall i :: 0 <= i < |objects| ==> |objects[i].id| == 20
    ensures r.Ok? <==> |objects| <= U32_MAX
    ensures r.Ok? ==> r.value.0 == Pack(sums, objects) && r.value.2 == sums.sha1(PackBody(objects))
    ensures r.Ok? ==> r.value.1 == Idx(sums, Ids(objects), Crcs(sums, objects), Offsets(objects), r.value.2)
  {
    hide Concat, PackBody, Offsets, Crcs, Fanout, Words4, Words8, OffsetWords, Larges;
    if |objects| > U32_MAX {
      return Err(Limit);
    }
    var out, offsets, crcs := WriteEntries(sums, objects);
    var checksum := sums.sha1(out);
    var ids := Ids(objects);
    var fanout := WriteFanout(ids);
    var crcBytes := WriteWords4(crcs);
    var words, large := SplitOffsets(offsets);
    var wordBytes := WriteWords4(words);
    var largeBytes := WriteWords8(large);
    var idx := IDX_MAGIC + fanout + Concat(ids) + crcBytes + wordBytes + largeBytes + checksum;
    SevenParts(IDX_MAGIC, fanout, Concat(ids), crcBytes, wordBytes, largeBytes, checksum);
    return Ok((out + checksum, idx + sums.sha1(idx), checksum));
  }

  lemma SevenParts(a: Bytes, b: Bytes, c: Bytes, d: Bytes, e: Bytes, f: Bytes, g: Bytes)
    ensures Concat([a, b, c, d, e, f, g]) == a + b + c + d + e + f + g
  {
    hide Concat;
    var none: seq<Bytes> := [];
    ConcatSnoc(none, a);
    NoParts<Byte>();
    assert none[..0] == none && none + [a] == [a];
    ConcatSnoc([a], b);
    ConcatSnoc([a, b], c);
    ConcatSnoc([a, b, c], d);
    ConcatSnoc([a, b, c, d], e);
    ConcatSnoc([a, b, c, d, e], f);
    ConcatSnoc([a, b, c, d, e, f], g);
    assert [a] + [b] == [a, b] && [a, b] + [c] == [a, b, c] && [a, b, c] + [d] == [a, b, c, d];
    assert [a, b, c, d] + [e] == [a, b, c, d, e] && [a, b, c, d, e] + [f] == [a, b, c, d, e, f];
    assert [a, b, c, d, e, f] + [g] == [a, b, c, d, e, f, g];
  }
}
