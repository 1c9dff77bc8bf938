/** Reading a version 2 pack idx (rust/src/pack.rs, `idx_object_ids` and
    `idx_object_sizes`), and reading back what `WritePack` writes. */
module PackIndexes {
  import opened Clonepack
  import opened Seqs
  import opened Words
  import opened Zlib
  import opened PackHeaders
  import opened PackFiles
  import opened Sorting

  const TABLES: nat := 1032

  function IdxObjectIds(idx: Bytes): Result<seq<Bytes>> {
    if |idx| < TABLES || idx[..8] != IDX_MAGIC then Err(BadGeometry) else
      var count := FromBe(idx[TABLES - 4..TABLES]);
      if |idx| < TABLES + 20 * count then Err(BadGeometry)
      else Ok(seq(count, i requires 0 <= i < count => idx[TABLES + 20 * i..TABLES + 20 * i + 20]))
  }

  /** The offset of object `i` of `count`, by way of the large table when flagged. */
  function ReadOffset(idx: Bytes, count: nat, i: nat): Result<nat> {
    var at := TABLES + 24 * count + 4 * i;
    if |idx| < at + 4 then Err(BadGeometry) else
      var word := FromBe(idx[at..at + 4]);
      if word < LARGE then Ok(word) else
        var large := TABLES + 28 * count + 8 * (word - LARGE);
        if |idx| < large + 8 then Err(BadGeometry) else Ok(FromBe(idx[large..large + 8]))
  }

  method ReadOffsets(idx: Bytes, count: nat) returns (r: Result<seq<nat>>)
    ensures r.Ok? <==> forall i: nat :: i < count ==> ReadOffset(idx, count, i).Ok?
    ensures r.Ok? ==> |r.value| == count && forall i :: 0 <= i < count ==> ReadOffset(idx, count, i) == Ok(r.value[i])
  {
    hide ReadOffset;
    var offsets: seq<nat> := [];
    for i := 0 to count
      invariant |offsets| == i && forall j :: 0 <= j < i ==> ReadOffset(idx, count, j) == Ok(offsets[j])
    {
      var offset := ReadOffset(idx, count, i);
      if offset.Err? {
        return Err(offset.error);
      }
      offsets := offsets + [offset.value];
    }
    return Ok(offsets);
  }

  /** `size` is the distance from offset `i` to the next one, or to the end. */
  ghost predicate IsSize(offsets: seq<nat>, end: nat, i: nat, size: nat)
    requires i < |offsets|
  {
    var next := offsets[i] + size;
    && next <= end
    && (forall j :: 0 <= j < |offsets| ==> offsets[j] <= offsets[i] || next <= offsets[j])
    && (next == end || exists j :: 0 <= j < |offsets| && j != i && offsets[j] == next)
  }

  function Key(offsets: seq<nat>): nat -> int {
    (i: nat) => if i < |offsets| then offsets[i] else 0
  }

  function Order(offsets: seq<nat>): seq<nat> {
    SortBy(Key(offsets), Upto(|offsets|))
  }

  function Upto(n: nat): seq<nat> { seq(n, i => i) }

  /** The order lists each object once, by offset. */
  ghost predicate Ordered(offsets: seq<nat>, order: seq<nat>) {
    && |order| == |offsets|
    && (forall k :: 0 <= k < |order| ==> order[k] < |offsets|)
    && (forall i, j :: 0 <= i < j < |order| ==>
       order[i] != order[j] && Key(offsets)(order[i]) <= Key(offsets)(order[j]))
    && (forall i :: 0 <= i < |offsets| ==> i in order)
  }

  lemma {:induction false} UptoOnce(n: nat, i: nat)
    ensures multiset(Upto(n))[i] == if i < n then 1 else 0
  {
    if n > 0 {
      UptoOnce(n - 1, i);
      assert Upto(n) == Upto(n - 1) + [n - 1];
    }
  }

  lemma TwiceCounts(s: seq<nat>, a: nat, b: nat)
    requires a < b < |s| && s[a] == s[b]
    ensures multiset(s)[s[a]] >= 2
  {
    var front, back := s[..b], s[b..];
    assert s == front + back;
    assert front[a] in multiset(front) && back[0] in multiset(back);
    assert multiset(s)[s[a]] == multiset(front)[s[a]] + multiset(back)[s[a]];
  }

  lemma OrderSorted(offsets: seq<nat>)
    ensures multiset(Order(offsets)) == multiset(Upto(|offsets|)) && |Order(offsets)| == |offsets|
    ensures forall i, j :: 0 <= i < j < |offsets| ==> Key(offsets)(Order(offsets)[i]) <= Key(offsets)(Order(offsets)[j])
  {
    hide SortBy;
    SortBySorted(Key(offsets), Upto(|offsets|));
  }

  lemma OrderIs(offsets: seq<nat>)
    ensures Ordered(offsets, Order(offsets))
  {
    hide SortBy, Order, SortedBy, Upto;
    var n, order := |offsets|, Order(offsets);
    OrderSorted(offsets);
    forall k | 0 <= k < |order| ensures order[k] < n {
      assert order[k] in multiset(order);
      UptoOnce(n, order[k]);
    }
    forall i, j | 0 <= i < j < |order| ensures order[i] != order[j] {
      UptoOnce(n, order[i]);
      if order[i] == order[j] {
        TwiceCounts(order, i, j);
      }
    }
    forall i: nat | i < n ensures i in order {
      UptoOnce(n, i);
      assert i in multiset(order);
    }
  }

  lemma {:induction false} SumUpdate(ns: seq<nat>, i: nat, v: nat)
    requires i < |ns|
    ensures Sum(ns[i := v]) + ns[i] == Sum(ns) + v
  {
    if i > 0 {
      SumUpdate(ns[1..], i - 1, v);
      assert ns[i := v][1..] == ns[1..][i - 1 := v];
    } else {
      assert ns[i := v][1..] == ns[1..];
    }
  }

  lemma {:induction false} SumZeros(n: nat)
    ensures Sum(seq(n, _ => 0)) == 0
  {
    if n > 0 {
      SumZeros(n - 1);
      assert seq<nat>(n, _ => 0)[1..] == seq(n - 1, _ => 0);
    }
  }

  /** The `k`th object's size by the order. */
  lemma SizeByOrder(offsets: seq<nat>, order: seq<nat>, end: nat, k: nat)
    requires Ordered(offsets, order) && k < |order|
    requires forall i :: 0 <= i < |offsets| ==> offsets[i] <= end
    ensures var next := if k + 1 < |order| then offsets[order[k + 1]] else end;
      offsets[order[k]] <= next && IsSize(offsets, end, order[k], next - offsets[order[k]])
  {
    var next := if k + 1 < |order| then offsets[order[k + 1]] else end;
    assert k + 1 < |order| ==> Key(offsets)(order[k]) <= Key(offsets)(order[k + 1]);
    forall j | 0 <= j < |offsets| ensures offsets[j] <= offsets[order[k]] || next <= offsets[j] {
      assert j in order;
      var m :| 0 <= m < |order| && order[m] == j;
      if m < k {
        assert Key(offsets)(order[m]) <= Key(offsets)(order[k]);
      } else if k + 1 < m {
        assert Key(offsets)(order[k + 1]) <= Key(offsets)(order[m]);
      }
    }
    assert k + 1 < |order| ==> order[k + 1] != order[k];
  }

  /** Where the sizes given so far reach. */
  function Reached(offsets: seq<nat>, order: seq<nat>, end: nat, k: nat): nat
    requires |order| == |offsets| && k <= |order| && forall j :: 0 <= j < |order| ==> order[j] < |offsets|
  {
    if k < |order| then offsets[order[k]] else end
  }

  /** The distance from each offset to the next; together, from the first to the end. */
  method SizesFrom(offsets: seq<nat>, end: nat) returns (r: Result<seq<nat>>)
    ensures r.Ok? <==> forall i :: 0 <= i < |offsets| ==> offsets[i] <= end
    ensures r.Ok? ==> |r.value| == |offsets| && forall i :: 0 <= i < |offsets| ==> IsSize(offsets, end, i, r.value[i])
    ensures r.Ok? && offsets != [] ==>
      exists m :: IsFirst(offsets, m) && Sum(r.value) == end - offsets[m]
  {
    hide Order, IsSize, Sum, Filled, Reached, Ordered;
    var order := Order(offsets);
    OrderIs(offsets);
    OrderCount(offsets, order);
    var sizes: seq<nat> := seq(|offsets|, _ => 0);
    FilledNone(offsets, order, end);
    for k := 0 to |order|
      invariant Filled(offsets, order, end, sizes, k) && |sizes| == |offsets|
    {
      var i := order[k];
      var next := if k + 1 < |order| then offsets[order[k + 1]] else end;
      if next < offsets[i] {
        OnlyLastFails(offsets, order, end, k);
        return Err(PastFrame);
      }
      ReachedNext(offsets, order, end, k);
      FilledNext(offsets, order, end, sizes, k);
      sizes := sizes[i := next - offsets[i]];
    }
    FilledAll(offsets, order, end, sizes);
    return Ok(sizes);
  }

  /** The first `k` objects by offset have their sizes, and those add up. */
  ghost predicate Filled(offsets: seq<nat>, order: seq<nat>, end: nat, sizes: seq<nat>, k: nat) {
    && Ordered(offsets, order) && |sizes| == |offsets| && k <= |order|
    && (forall j :: k <= j < |order| ==> sizes[order[j]] == 0)
    && (forall j :: 0 <= j < k ==> offsets[order[j]] + sizes[order[j]] == Reached(offsets, order, end, j + 1))
    && Sum(sizes) + Reached(offsets, order, end, 0) == Reached(offsets, order, end, k)
  }

  lemma OrderCount(offsets: seq<nat>, order: seq<nat>)
    requires Ordered(offsets, order)
    ensures |order| == |offsets| && forall k :: 0 <= k < |order| ==> order[k] < |offsets|
  {}

  lemma FilledNone(offsets: seq<nat>, order: seq<nat>, end: nat)
    requires Ordered(offsets, order)
    ensures Filled(offsets, order, end, seq(|offsets|, _ => 0), 0)
  {
    SumZeros(|offsets|);
  }

  lemma OnlyLastFails(offsets: seq<nat>, order: seq<nat>, end: nat, k: nat)
    requires Ordered(offsets, order) && k < |order|
      && (if k + 1 < |order| then offsets[order[k + 1]] else end) < offsets[order[k]]
    ensures exists i :: 0 <= i < |offsets| && offsets[i] > end
  {
    InOffsetOrder(offsets, order, k);
  }

  lemma InOffsetOrder(offsets: seq<nat>, order: seq<nat>, k: nat)
    requires Ordered(offsets, order) && k < |order|
    ensures k + 1 < |order| ==> offsets[order[k]] <= offsets[order[k + 1]]
  {
    assert k + 1 < |order| ==> Key(offsets)(order[k]) <= Key(offsets)(order[k + 1]);
  }

  lemma ReachedNext(offsets: seq<nat>, order: seq<nat>, end: nat, k: nat)
    requires Ordered(offsets, order) && k < |order|
    ensures Reached(offsets, order, end, k + 1) == if k + 1 < |order| then offsets[order[k + 1]] else end
  {}

  lemma FilledNext(offsets: seq<nat>, order: seq<nat>, end: nat, sizes: seq<nat>, k: nat)
    requires Filled(offsets, order, end, sizes, k) && k < |order|
    requires offsets[order[k]] <= Reached(offsets, order, end, k + 1)
    ensures Filled(offsets, order, end, sizes[order[k] := Reached(offsets, order, end, k + 1) - offsets[order[k]]],
      k + 1)
    ensures Reached(offsets, order, end, k + 1) == if k + 1 < |order| then offsets[order[k + 1]] else end
  {
    var i, size := order[k], Reached(offsets, order, end, k + 1) - offsets[order[k]];
    SumUpdate(sizes, i, size);
    var next := sizes[i := size];
    hide Sum;
    forall j | 0 <= j < |order| && j != k ensures next[order[j]] == sizes[order[j]] {
      assert order[j] != i;
    }
  }

  lemma FilledAll(offsets: seq<nat>, order: seq<nat>, end: nat, sizes: seq<nat>)
    requires Filled(offsets, order, end, sizes, |order|)
    ensures |sizes| == |offsets|
    ensures forall i :: 0 <= i < |offsets| ==> offsets[i] <= end && IsSize(offsets, end, i, sizes[i])
    ensures offsets != [] ==>
      exists m :: IsFirst(offsets, m) && Sum(sizes) == end - offsets[m]
  {
    hide IsSize, Sum;
    SizesRight(offsets, order, end, sizes);
    if offsets != [] {
      assert Reached(offsets, order, end, 0) == offsets[order[0]];
      assert IsFirst(offsets, order[0]);
    }
  }

  lemma SizesRight(offsets: seq<nat>, order: seq<nat>, end: nat, sizes: seq<nat>)
    requires Ordered(offsets, order) && |sizes| == |offsets|
    requires forall j :: 0 <= j < |order| ==> offsets[order[j]] + sizes[order[j]] == Reached(offsets, order, end, j + 1)
    ensures forall i :: 0 <= i < |offsets| ==> offsets[i] <= end && IsSize(offsets, end, i, sizes[i])
    ensures offsets != [] ==> forall i :: 0 <= i < |offsets| ==> offsets[order[0]] <= offsets[i]
  {
    var n := |order| - 1;
    forall i | 0 <= i < |offsets| ensures offsets[i] <= end && offsets[order[0]] <= offsets[i] {
      assert i in order;
      var k :| 0 <= k < |order| && order[k] == i;
      assert k < n ==> Key(offsets)(order[k]) <= Key(offsets)(order[n]);
      assert 0 < k ==> Key(offsets)(order[0]) <= Key(offsets)(order[k]);
      assert offsets[order[n]] + sizes[order[n]] == end;
    }
    hide IsSize;
    forall i | 0 <= i < |offsets| ensures IsSize(offsets, end, i, sizes[i]) {
      assert i in order;
      var k :| 0 <= k < |order| && order[k] == i;
      SizeByOrder(offsets, order, end, k);
    }
  }

  ghost predicate OffsetsRead(idx: Bytes, offsets: seq<nat>) {
    forall i :: 0 <= i < |offsets| ==> ReadOffset(idx, |offsets|, i) == Ok(offsets[i])
  }

  /** The ids and the offset of each can be read. */
  ghost predicate Readable(idx: Bytes) {
    && IdxObjectIds(idx).Ok?
    && forall i: nat :: i < |IdxObjectIds(idx).value| ==> ReadOffset(idx, |IdxObjectIds(idx).value|, i).Ok?
  }

  ghost function OffsetsOf(idx: Bytes): seq<nat>
    requires Readable(idx)
  {
    var n := |IdxObjectIds(idx).value|;
    seq<nat>(n, i requires 0 <= i < n => ReadOffset(idx, n, i).value)
  }

  /** Each id with its size, which `IsSize` defines; the sizes add up to what lies
      between the first offset and the checksum. Fails exactly when the idx cannot
      be read or an offset is past the checksum. */
  method IdxObjectSizes(idx: Bytes, packLen: nat) returns (r: Result<seq<(Bytes, nat)>>)
    ensures r.Ok? <==>
      packLen >= 20 && Readable(idx) && forall i :: 0 <= i < |OffsetsOf(idx)| ==> OffsetsOf(idx)[i] <= packLen - 20
    ensures r.Ok? ==> |r.value| == |OffsetsOf(idx)| && Firsts(r.value) == IdxObjectIds(idx).value
    ensures r.Ok? ==> forall i :: 0 <= i < |r.value| ==> IsSize(OffsetsOf(idx), packLen - 20, i, r.value[i].1)
    ensures r.Ok? && r.value != [] ==>
      exists m :: IsFirst(OffsetsOf(idx), m) && Sum(Seconds(r.value)) == packLen - 20 - OffsetsOf(idx)[m]
  {
    hide IsSize, ReadOffset, IdxObjectIds, Sum;
    var ids := IdxObjectIds(idx);
    if ids.Err? {
      return Err(ids.error);
    }
    var count := |ids.value|;
    var read := ReadOffsets(idx, count);
    if read.Err? {
      return Err(read.error);
    }
    assert read.value == OffsetsOf(idx);
    if packLen < 20 {
      return Err(PastFrame);
    }
    var sizes := SizesFrom(read.value, packLen - 20);
    if sizes.Err? {
      return Err(sizes.error);
    }
    var pairs := seq(count, i requires 0 <= i < count => (ids.value[i], sizes.value[i]));
    assert Seconds(pairs) == sizes.value && Firsts(pairs) == ids.value;
    return Ok(pairs);
  }

  /** The smallest offset. */
  ghost predicate IsFirst(offsets: seq<nat>, m: int) {
    0 <= m < |offsets| && forall i :: 0 <= i < |offsets| ==> offsets[m] <= offsets[i]
  }

  function Firsts(pairs: seq<(Bytes, nat)>): seq<Bytes> {
    seq(|pairs|, i requires 0 <= i < |pairs| => pairs[i].0)
  }

  function Seconds(pairs: seq<(Bytes, nat)>): seq<nat> {
    seq(|pairs|, i requires 0 <= i < |pairs| => pairs[i].1)
  }

  /** Parts of one width: part `i` is at `width * i`. */
  lemma {:induction false} FixedAt(ss: seq<Bytes>, width: nat, i: nat)
    requires i <= |ss| && forall k :: 0 <= k < |ss| ==> |ss[k]| == width
    ensures |Concat(ss[..i])| == width * i && |Concat(ss)| == width * |ss|
    ensures i < |ss| ==> width * i + width <= |Concat(ss)| && Concat(ss)[width * i..width * i + width] == ss[i]
  {
    FixedLength(ss, width);
    FixedLength(ss[..i], width);
    if i < |ss| {
      ConcatPart(ss, i);
    }
  }

  lemma {:induction false} FixedLength(ss: seq<Bytes>, width: nat)
    requires forall k :: 0 <= k < |ss| ==> |ss[k]| == width
    ensures |Concat(ss)| == width * |ss|
  {
    if ss != [] {
      FixedLength(ss[1..], width);
    }
  }

  lemma Words4At(ns: seq<nat>, i: nat)
    requires i < |ns| && ns[i] <= U32_MAX
    ensures |Concat(Words4(ns))| == 4 * |ns|
    ensures FromBe(Concat(Words4(ns))[4 * i..4 * i + 4]) == ns[i]
  {
    forall k | 0 <= k < |ns| ensures |Words4(ns)[k]| == 4 { BeLength(ns[k], 4); }
    FixedAt(Words4(ns), 4, i);
    Pow4();
    BeRoundTrip(ns[i], 4);
  }

  lemma Words4Length(ns: seq<nat>)
    ensures |Concat(Words4(ns))| == 4 * |ns|
  {
    forall k | 0 <= k < |ns| ensures |Words4(ns)[k]| == 4 { BeLength(ns[k], 4); }
    FixedLength(Words4(ns), 4);
  }

  lemma Words8At(ns: seq<nat>, i: nat)
    requires i < |ns| && ns[i] <= U64_MAX
    ensures |Concat(Words8(ns))| == 8 * |ns|
    ensures FromBe(Concat(Words8(ns))[8 * i..8 * i + 8]) == ns[i]
  {
    forall k | 0 <= k < |ns| ensures |Words8(ns)[k]| == 8 { BeLength(ns[k], 8); }
    FixedAt(Words8(ns), 8, i);
    Pow4();
    BeRoundTrip(ns[i], 8);
  }

  lemma Words8Length(ns: seq<nat>)
    ensures |Concat(Words8(ns))| == 8 * |ns|
  {
    forall k | 0 <= k < |ns| ensures |Words8(ns)[k]| == 8 { BeLength(ns[k], 8); }
    FixedLength(Words8(ns), 8);
  }

  lemma FanoutEnd(ids: seq<Oid>)
    requires |ids| <= U32_MAX && forall i :: 0 <= i < |ids| ==> |ids[i]| == 20
    ensures |Concat(Fanout(ids))| == 1024 && FromBe(Concat(Fanout(ids))[1020..1024]) == |ids|
  {
    forall k | 0 <= k < 256 ensures |Fanout(ids)[k]| == 4 { BeLength(Fan(ids, k), 4); }
    FixedAt(Fanout(ids), 4, 255);
    AllUpTo255(ids);
    Pow4();
    BeRoundTrip(|ids|, 4);
  }

  /** An idx as its parts, each where the readers look for it. */
  ghost predicate Parts(idx: Bytes, ids: seq<Oid>, offsets: seq<nat>) {
    var n, l := |ids|, |Larges(offsets)|;
    && |offsets| == n && |idx| == TABLES + 28 * n + 8 * l + 40
    && idx[..8] == IDX_MAGIC
    && idx[8..TABLES] == Concat(Fanout(ids))
    && idx[TABLES..TABLES + 20 * n] == Concat(ids)
    && idx[TABLES + 24 * n..TABLES + 28 * n] == Concat(Words4(OffsetWords(offsets)))
    && idx[TABLES + 28 * n..TABLES + 28 * n + 8 * l] == Concat(Words8(Larges(offsets)))
  }

  lemma Sevenths(a: Bytes, b: Bytes, c: Bytes, d: Bytes, e: Bytes, f: Bytes, g: Bytes, h: Bytes)
    ensures var s := a + b + c + d + e + f + g + h;
      var i, j, k, l, m, n := |a|, |a| + |b|, |a| + |b| + |c|, |a| + |b| + |c| + |d|, |a| + |b| + |c| + |d| + |e|,
        |a| + |b| + |c| + |d| + |e| + |f|;
      && |s| == n + |g| + |h| && s[..i] == a && s[i..j] == b && s[j..k] == c && s[l..m] == e && s[m..n] == f
  {}

  lemma IdxParts(sums: Sums, ids: seq<Oid>, crcs: seq<nat>, offsets: seq<nat>, checksum: Bytes)
    requires SumsOk(sums) && |ids| == |crcs| == |offsets| <= U32_MAX && |checksum| == 20
    requires forall i :: 0 <= i < |ids| ==> |ids[i]| == 20
    ensures Parts(Idx(sums, ids, crcs, offsets, checksum), ids, offsets)
  {
    hide Concat, Fanout, Words4, Words8, OffsetWords, Larges;
    var a, b, c := IDX_MAGIC, Concat(Fanout(ids)), Concat(ids);
    var d, e, f := Concat(Words4(crcs)), Concat(Words4(OffsetWords(offsets))), Concat(Words8(Larges(offsets)));
    var body := Concat(Sections(ids, crcs, offsets, checksum));
    SevenParts(a, b, c, d, e, f, checksum);
    FanoutEnd(ids);
    FixedLength(ids, 20);
    Words4Length(crcs);
    Words4Length(OffsetWords(offsets));
    WordCount(offsets);
    Words8Length(Larges(offsets));
    Sevenths(a, b, c, d, e, f, checksum, sums.sha1(body));
  }

  lemma WordCount(offsets: seq<nat>)
    ensures |OffsetWords(offsets)| == |offsets|
  {}

  /** The ids are read back. */
  lemma IdsRead(idx: Bytes, ids: seq<Oid>, offsets: seq<nat>)
    requires Parts(idx, ids, offsets) && |ids| <= U32_MAX && forall i :: 0 <= i < |ids| ==> |ids[i]| == 20
    ensures IdxObjectIds(idx) == Ok(ids)
  {
    hide Concat, Fanout, Words4, Words8, OffsetWords, Larges, FromBe;
    var n := |ids|;
    FanoutEnd(ids);
    SliceSlice(idx, 8, TABLES, 1020, 1024);
    forall i | 0 <= i < n ensures idx[TABLES + 20 * i..TABLES + 20 * i + 20] == ids[i] {
      FixedAt(ids, 20, i);
      SliceSlice(idx, TABLES, TABLES + 20 * n, 20 * i, 20 * i + 20);
    }
    assert FromBe(idx[TABLES - 4..TABLES]) == n;
    var got := IdxObjectIds(idx);
    assert got.Ok? && |got.value| == n;
    assert forall i :: 0 <= i < n ==> got.value[i] == ids[i];
    assert got.value == ids;
  }

  /** A large offset is in the large table after the large ones before it. */
  lemma {:induction false} LargeAt(offsets: seq<nat>, i: nat)
    requires i < |offsets|
    ensures |Larges(offsets[..i])| <= |Larges(offsets)| <= |offsets| && |Larges(offsets[..i])| <= i
    ensures offsets[i] >= LARGE ==>
      |Larges(offsets[..i])| < |Larges(offsets)| && Larges(offsets)[|Larges(offsets[..i])|] == offsets[i]
  {
    var n := |offsets| - 1;
    if i < n {
      LargeAt(offsets[..n], i);
      assert offsets[..n][..i] == offsets[..i];
    } else if i > 0 {
      LargeAt(offsets[..n], i - 1);
      assert offsets[..i][..i - 1] == offsets[..i - 1];
    }
  }

  /** What the reader makes of offset `i`: the flag bit and the index in the
      large table share the word, so an index of 2^31 or more loses its bit. */
  lemma OffsetRead(idx: Bytes, ids: seq<Oid>, offsets: seq<nat>, i: nat)
    requires Parts(idx, ids, offsets) && |ids| <= U32_MAX && i < |offsets|
    requires forall k :: 0 <= k < |offsets| ==> offsets[k] <= U64_MAX
    ensures var k := |Larges(offsets[..i])|;
      && |Larges(offsets[..i])| <= |Larges(offsets)|
      && ReadOffset(idx, |ids|, i) ==
         Ok(if offsets[i] < LARGE || k < LARGE then offsets[i] else Larges(offsets)[k - LARGE])
  {
    hide Concat, Fanout, Words4, Words8, FromBe, Larges;
    var n, l, k := |ids|, |Larges(offsets)|, |Larges(offsets[..i])|;
    LargeAt(offsets, i);
    Words4At(OffsetWords(offsets), i);
    SliceSlice(idx, TABLES + 24 * n, TABLES + 28 * n, 4 * i, 4 * i + 4);
    if offsets[i] >= LARGE {
      var at := if k < LARGE then k else k - LARGE;
      LargesBounded(offsets, at);
      Words8At(Larges(offsets), at);
      SliceSlice(idx, TABLES + 28 * n, TABLES + 28 * n + 8 * l, 8 * at, 8 * at + 8);
    }
  }

  lemma {:induction false} LargesBounded(offsets: seq<nat>, k: nat)
    requires k < |Larges(offsets)| && forall i :: 0 <= i < |offsets| ==> offsets[i] <= U64_MAX
    ensures Larges(offsets)[k] <= U64_MAX
  {
    var n := |offsets| - 1;
    if k < |Larges(offsets[..n])| {
      LargesBounded(offsets[..n], k);
    }
  }

  ghost predicate Rising(offsets: seq<nat>) {
    forall i, j :: 0 <= i < j < |offsets| ==> offsets[i] < offsets[j]
  }

  lemma {:induction false} LargesRise(offsets: seq<nat>)
    requires Rising(offsets)
    ensures Rising(Larges(offsets))
    ensures forall k :: 0 <= k < |Larges(offsets)| ==> Larges(offsets)[k] in offsets
  {
    if offsets != [] {
      LargesRise(offsets[..|offsets| - 1]);
    }
  }

  /** Every offset is read back exactly when the large table has at most 2^31
      entries. */
  lemma OffsetsReadBack(idx: Bytes, ids: seq<Oid>, offsets: seq<nat>)
    requires Parts(idx, ids, offsets) && |ids| <= U32_MAX && Rising(offsets)
    requires forall k :: 0 <= k < |offsets| ==> offsets[k] <= U64_MAX
    ensures OffsetsRead(idx, offsets) <==> |Larges(offsets)| <= LARGE
  {
    hide Parts, ReadOffset;
    if |Larges(offsets)| <= LARGE {
      forall i | 0 <= i < |offsets| ensures ReadOffset(idx, |offsets|, i) == Ok(offsets[i]) {
        OffsetRead(idx, ids, offsets, i);
        PartsCount(idx, ids, offsets);
        LargeAt(offsets, i);
      }
    } else {
      var i := LargeFrom(offsets, LARGE);
      OffsetRead(idx, ids, offsets, i);
      PartsCount(idx, ids, offsets);
      LargesRise(offsets);
      assert Larges(offsets)[0] < Larges(offsets)[LARGE];
    }
  }

  lemma PartsCount(idx: Bytes, ids: seq<Oid>, offsets: seq<nat>)
    requires Parts(idx, ids, offsets)
    ensures |ids| == |offsets|
  {}

  lemma {:induction false} LargeFrom(offsets: seq<nat>, k: nat) returns (i: nat)
    requires k < |Larges(offsets)|
    ensures i < |offsets| && offsets[i] >= LARGE && |Larges(offsets[..i])| == k && Larges(offsets)[k] == offsets[i]
  {
    var n := |offsets| - 1;
    if k < |Larges(offsets[..n])| {
      i := LargeFrom(offsets[..n], k);
      assert offsets[..n][..i] == offsets[..i];
    } else {
      i := n;
    }
  }

  /** The entry starts with its header, its data follows, and that is where the
      next entry or the checksum starts. */
  ghost predicate ReadsAs(buf: Bytes, o: Object) {
    var n := |Header(TAG, |o.data|)|;
    && GoodHeader(buf, n) && buf[0] / 16 % 8 == TAG && Value(buf[..n]) == |o.data|
    && n <= |Entry(o)| <= |buf|
    && ReadZlib(buf[n..]) == Some((o.data, buf[|Entry(o)|..]))
  }

  lemma EntryReads(o: Object, rest: Bytes)
    requires |o.data| <= U64_MAX
    ensures ReadsAs(Entry(o) + rest, o)
  {
    hide Header, Stored, ReadZlib, GoodHeader, Value, Entry;
    var h, z := Header(TAG, |o.data|), Stored(o.data);
    var buf := Entry(o) + rest;
    EntryIs(o);
    HeaderReads(TAG, |o.data|, z + rest);
    ZlibRoundTrip(o.data, rest);
    assert buf == h + (z + rest);
    assert buf[|h|..] == z + rest && buf[|Entry(o)|..] == rest;
  }

  lemma EntryPlace(sums: Sums, objects: seq<Object>, i: nat)
    requires i < |objects|
    ensures var at, pack := Offsets(objects)[i], Pack(sums, objects);
      && at + |Entry(objects[i])| + |sums.sha1(PackBody(objects))| <= |pack|
      && pack[at..] == Entry(objects[i]) + pack[at + |Entry(objects[i])|..]
      && at + |Entry(objects[i])| == Next(objects, i)
      && Offsets(objects)[0] == 12
  {
    hide Concat, Entry, PackHead, ToBe;
    var es, e := Entries(objects), Entry(objects[i]);
    HeadLength(|objects|);
    ConcatPart(es, i);
    NoParts<Byte>();
    var at, pack := Offsets(objects)[i], Pack(sums, objects);
    var body := PackBody(objects);
    assert es[..|es|] == es;
    SliceSlice(body, 12, |body|, at - 12, at - 12 + |e|);
    assert body[12..] == Concat(es) && body[12..|body|] == body[12..];
    assert pack[at..at + |e|] == body[at..at + |e|] == e;
    assert pack[at..] == pack[at..at + |e|] + pack[at + |e|..];
  }

  lemma OffsetsRise(sums: Sums, objects: seq<Object>)
    ensures Rising(Offsets(objects))
    ensures forall i :: 0 <= i < |objects| ==> Offsets(objects)[i] < |PackBody(objects)|
  {
    hide Entry, Pack, PackBody, Offsets;
    var offsets, n := Offsets(objects), |objects|;
    OffsetCount(objects);
    forall i, j | 0 <= i < j < |offsets| && j == i + 1 ensures offsets[i] < offsets[j] {
      EntryPlace(sums, objects, i);
      EntryHolds(objects[i]);
    }
    RiseTo(offsets, n);
    if n > 0 {
      EntryPlace(sums, objects, n - 1);
      EntryHolds(objects[n - 1]);
    }
  }

  lemma OffsetCount(objects: seq<Object>)
    ensures |Offsets(objects)| == |objects|
  {}

  lemma EntryHolds(o: Object)
    ensures |Entry(o)| > 0
  {}

  /** Where entry `i` ends. */
  ghost function Next(objects: seq<Object>, i: nat): nat
    requires i < |objects|
  {
    if i + 1 < |objects| then Offsets(objects)[i + 1] else |PackBody(objects)|
  }

  /** Each offset before the next, so each before all later ones. */
  lemma {:induction false} RiseTo(offsets: seq<nat>, n: nat)
    requires n <= |offsets|
    requires forall i, j :: 0 <= i < j < |offsets| && j == i + 1 ==> offsets[i] < offsets[j]
    ensures forall i, j :: 0 <= i < j < n ==> offsets[i] < offsets[j]
  {
    if n > 1 {
      RiseTo(offsets, n - 1);
      assert offsets[n - 2] < offsets[n - 1];
    }
  }

  /** The next offset, or the pack's end, is one entry further. */
  lemma PlaceNext(sums: Sums, objects: seq<Object>, i: nat)
    requires SumsOk(sums) && i < |objects|
    ensures |Pack(sums, objects)| >= 20 && |Offsets(objects)| == |objects| && Entry(objects[i]) != []
    ensures var offsets, end := Offsets(objects), |Pack(sums, objects)| - 20;
      && Rising(offsets) && (forall j :: 0 <= j < |offsets| ==> offsets[j] < end)
      && offsets[i] + |Entry(objects[i])| == if i + 1 < |objects| then offsets[i + 1] else end
  {
    hide Entry, Offsets, PackBody;
    OffsetsRise(sums, objects);
    OffsetCount(objects);
    EntryPlace(sums, objects, i);
    EntryHolds(objects[i]);
  }

  /** In a rising list the size of an entry is the distance to the next offset. */
  lemma SizeBetween(offsets: seq<nat>, end: nat, i: nat, len: nat, size: nat)
    requires Rising(offsets) && i < |offsets| && len > 0
    requires offsets[i] + len == if i + 1 < |offsets| then offsets[i + 1] else end
    requires forall j :: 0 <= j < |offsets| ==> offsets[j] < end
    ensures IsSize(offsets, end, i, size) <==> size == len
  {
    assert i + 1 < |offsets| ==> offsets[i] < offsets[i + 1];
    assert forall j :: i < j < |offsets| ==> offsets[i] + len <= offsets[j];
  }

  /** By the offsets of a pack, an object takes exactly its entry's length. */
  lemma SizeIsLength(sums: Sums, objects: seq<Object>, i: nat, size: nat)
    requires SumsOk(sums) && i < |objects|
    ensures |Offsets(objects)| == |objects| && |Pack(sums, objects)| >= 20
    ensures IsSize(Offsets(objects), |Pack(sums, objects)| - 20, i, size) <==> size == |Entry(objects[i])|
  {
    hide *;
    OffsetCount(objects);
    PlaceNext(sums, objects, i);
    SizeBetween(Offsets(objects), |Pack(sums, objects)| - 20, i, |Entry(objects[i])|, size);
  }

  /** What `WritePack` writes is read back: the ids, each entry at its offset, and
      the offsets themselves exactly when at most 2^31 of them are large. */
  lemma PackReadsBack(sums: Sums, objects: seq<Object>)
    requires SumsOk(sums) && |objects| <= U32_MAX && |Pack(sums, objects)| <= U64_MAX
    requires forall i :: 0 <= i < |objects| ==> |objects[i].id| == 20
    ensures var idx := Idx(sums, Ids(objects), Crcs(sums, objects), Offsets(objects), sums.sha1(PackBody(objects)));
      && IdxObjectIds(idx) == Ok(Ids(objects))
      && (OffsetsRead(idx, Offsets(objects)) <==> |Larges(Offsets(objects))| <= LARGE)
    ensures forall i :: 0 <= i < |objects| ==>
      i < |Offsets(objects)| && Offsets(objects)[i] <= |Pack(sums, objects)|
      && ReadsAs(Pack(sums, objects)[Offsets(objects)[i]..], objects[i])
  {
    hide *;
    var ids, offsets, pack := Ids(objects), Offsets(objects), Pack(sums, objects);
    var crcs, checksum := Crcs(sums, objects), sums.sha1(PackBody(objects));
    Counts(sums, objects);
    OffsetsRise(sums, objects);
    PackLength(sums, objects);
    IdxParts(sums, ids, crcs, offsets, checksum);
    var idx := Idx(sums, ids, crcs, offsets, checksum);
    IdsRead(idx, ids, offsets);
    OffsetsReadBack(idx, ids, offsets);
    forall i | 0 <= i < |objects|
      ensures i < |offsets| && offsets[i] <= |pack| && ReadsAs(pack[offsets[i]..], objects[i])
    {
      EntryPlace(sums, objects, i);
      DataFits(objects[i]);
      EntryReads(objects[i], pack[offsets[i] + |Entry(objects[i])|..]);
    }
  }

  lemma Counts(sums: Sums, objects: seq<Object>)
    requires SumsOk(sums) && forall i :: 0 <= i < |objects| ==> |objects[i].id| == 20
    ensures |Ids(objects)| == |Crcs(sums, objects)| == |Offsets(objects)| == |objects|
      && |sums.sha1(PackBody(objects))| == 20
    ensures forall i :: 0 <= i < |Ids(objects)| ==> |Ids(objects)[i]| == 20
  {}

  lemma PackLength(sums: Sums, objects: seq<Object>)
    requires SumsOk(sums)
    ensures |Pack(sums, objects)| == |PackBody(objects)| + 20
  {}

  lemma {:induction false} BlocksLength(data: Bytes)
    ensures |Blocks(data)| >= |data|
  {
    if |data| > BLOCK {
      BlocksLength(data[BLOCK..]);
    }
  }

  lemma DataFits(o: Object)
    ensures |o.data| <= |Entry(o)|
  {
    BlocksLength(o.data);
    hide Blocks;
  }

  /** The entries' lengths, and so the sizes read, add up to the pack without its
      header and checksum. */
  lemma SizesSum(sums: Sums, objects: seq<Object>)
    requires SumsOk(sums)
    ensures Sum(Lengths(Entries(objects))) == |Pack(sums, objects)| - 32
  {
    HeadLength(|objects|);
    ConcatLength(Entries(objects));
  }

  /** The ids with the bytes each takes, as an idx gives them. */
  function IdSizes(objects: seq<Object>): seq<(Bytes, nat)> {
    seq(|objects|, i requires 0 <= i < |objects| => (objects[i].id, |Entry(objects[i])|))
  }

  /** Write a pack and read the sizes from its idx: each id with its entry's length,
      together the pack without its header and checksum, as long as at most 2^31
      offsets are large. */
  method WrittenSizes(sums: Sums, objects: seq<Object>) returns (r: Result<seq<(Bytes, nat)>>)
    requires SumsOk(sums) && |Pack(sums, objects)| <= U64_MAX && |Larges(Offsets(objects))| <= LARGE
    requires forall i :: 0 <= i < |objects| ==> |objects[i].id| == 20
    ensures r.Ok? <==> |objects| <= U32_MAX
    ensures r.Ok? ==> r.value == IdSizes(objects) && Sum(Seconds(r.value)) == |Pack(sums, objects)| - 32
  {
    hide *;
    var written := WritePack(sums, objects);
    if written.Err? {
      return Err(written.error);
    }
    var pack, idx := written.value.0, written.value.1;
    PackReadsBack(sums, objects);
    Counts(sums, objects);
    OffsetsRise(sums, objects);
    PackLength(sums, objects);
    IsReadable(idx, Ids(objects), Offsets(objects));
    SizesCount(objects);
    r := IdxObjectSizes(idx, |pack|);
    forall i | 0 <= i < |objects| ensures r.value[i] == IdSizes(objects)[i] {
      SizeIsLength(sums, objects, i, r.value[i].1);
      PairIs(r.value, objects, i);
    }
    assert r.value == IdSizes(objects);
    SizesSum(sums, objects);
    SecondsAre(objects);
  }

  lemma IsReadable(idx: Bytes, ids: seq<Oid>, offsets: seq<nat>)
    requires IdxObjectIds(idx) == Ok(ids) && OffsetsRead(idx, offsets) && |ids| == |offsets|
    ensures Readable(idx) && OffsetsOf(idx) == offsets
  {
    hide IdxObjectIds, ReadOffset;
    assert forall i :: 0 <= i < |offsets| ==> OffsetsOf(idx)[i] == offsets[i];
  }

  lemma PairIs(pairs: seq<(Bytes, nat)>, objects: seq<Object>, i: nat)
    requires i < |objects| == |pairs| && Firsts(pairs) == Ids(objects)
    ensures pairs[i].0 == objects[i].id && IdSizes(objects)[i] == (objects[i].id, |Entry(objects[i])|)
  {
    assert Firsts(pairs)[i] == Ids(objects)[i];
  }

  lemma SizesCount(objects: seq<Object>)
    ensures |IdSizes(objects)| == |objects|
  {}

  lemma SecondsAre(objects: seq<Object>)
    ensures Seconds(IdSizes(objects)) == Lengths(Entries(objects))
  {}
}
