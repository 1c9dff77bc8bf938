/** The Head packs of a commit: a base and levels that together hold its depth-1
    objects, each once (rust/src/pack.rs, `build_packs_from_oids`,
    `build_head_level`, `rebase_head_packs`). */
module HeadPacks {
  import opened Clonepack
  import opened Seqs
  import opened Listings

  /** A stored pack: its ids and the bytes each takes, as its idx gives them, and
      its length. */
  datatype HeadPack = HeadPack(ids: seq<Oid>, sizes: seq<nat>, len: nat)

  ghost predicate NoDuplicates(ids: seq<Oid>) {
    forall i, j :: 0 <= i < j < |ids| ==> ids[i] != ids[j]
  }

  ghost predicate PackOk(p: HeadPack) {
    |p.ids| == |p.sizes| && NoDuplicates(p.ids) && p.len == 32 + Sum(p.sizes)
  }

  /** `pack-objects` packs exactly the objects it is given. */
  ghost predicate PackerOk(packer: seq<Oid> -> HeadPack) {
    forall ids :: NoDuplicates(ids) ==> PackOk(packer(ids)) && forall x :: x in packer(ids).ids <==> x in ids
  }

  /** The raw bytes of a batch. */
  function Raw(ids: seq<Oid>, size: Oid -> nat): nat {
    if ids == [] then 0 else Raw(ids[..|ids| - 1], size) + size(ids[|ids| - 1])
  }

  /** Within the target, or one object. */
  ghost predicate BatchOk(batch: seq<Oid>, size: Oid -> nat, target: nat) {
    batch != [] && (|batch| == 1 || Raw(batch, size) <= AtLeastOne(target))
  }

  /** The next batch's first object would not have fitted. */
  ghost predicate Greedy(batches: seq<seq<Oid>>, size: Oid -> nat, target: nat) {
    forall i, j :: 0 <= i < j < |batches| && j == i + 1 && batches[j] != [] ==>
      Raw(batches[i], size) + size(batches[j][0]) > AtLeastOne(target)
  }

  /** Partition greedily by raw size, in order. */
  method Partition(oids: seq<Oid>, size: Oid -> nat, target: nat) returns (r: Result<seq<seq<Oid>>>)
    ensures r.Ok? ==> Concat(r.value) == oids && Greedy(r.value, size, target)
    ensures r.Ok? ==> forall i :: 0 <= i < |r.value| ==> BatchOk(r.value[i], size, target)
    ensures Raw(oids, size) <= U64_MAX ==> r.Ok?
  {
    hide *;
    var batches: seq<seq<Oid>>, cur: seq<Oid>, bytes: nat := [], [], 0;
    NoBatches(size, target);
    for k := 0 to |oids|
      invariant bytes == Raw(cur, size)
      invariant Cutting(batches, cur, oids[..k], size, target)
    {
      var oid: Oid, sz: nat := oids[k], size(oids[k]);
      CutIsTail(batches, cur, oids, k, size, target);
      assert oids[..k] + [oid] == oids[..k + 1];
      if cur != [] && bytes + sz > U64_MAX {
        return Err(Limit);
      }
      if cur != [] && bytes + sz > AtLeastOne(target) {
        CutClose(batches, cur, oids[..k], oid, size, target);
        batches := batches + [cur];
        cur, bytes := [], 0;
      } else {
        CutGrow(batches, cur, oids[..k], oid, size, target);
      }
      if bytes + sz > U64_MAX {
        return Err(Limit);
      }
      cur, bytes := cur + [oid], bytes + sz;
    }
    assert oids[..|oids|] == oids;
    CutDone(batches, cur, oids, size, target);
    if cur != [] {
      batches := batches + [cur];
    }
    return Ok(batches);
  }

  lemma NoBatches(size: Oid -> nat, target: nat)
    ensures Raw([], size) == 0 && Cutting([], [], [], size, target)
  {}

  /** The ids so far are the closed batches' and then the open one's, which is
      empty only at the start. */
  ghost predicate Cutting(batches: seq<seq<Oid>>, cur: seq<Oid>, done: seq<Oid>, size: Oid -> nat, target: nat) {
    && Concat(batches) + cur == done
    && (cur == [] ==> batches == [])
    && (cur != [] ==> BatchOk(cur, size, target))
    && (forall i :: 0 <= i < |batches| ==> BatchOk(batches[i], size, target))
    && Greedy(batches + [cur], size, target)
  }

  lemma CutGrow(batches: seq<seq<Oid>>, cur: seq<Oid>, done: seq<Oid>, oid: Oid, size: Oid -> nat, target: nat)
    requires Cutting(batches, cur, done, size, target)
    requires cur == [] || Raw(cur, size) + size(oid) <= AtLeastOne(target)
    ensures Raw(cur + [oid], size) == Raw(cur, size) + size(oid)
    ensures Cutting(batches, cur + [oid], done + [oid], size, target)
  {
    hide Concat, Raw, Greedy, BatchOk;
    RawNext(cur, oid, size);
    BatchGrows(cur, oid, size, target);
    GreedyGrow(batches, cur, oid, size, target);
  }

  lemma CutClose(batches: seq<seq<Oid>>, cur: seq<Oid>, done: seq<Oid>, oid: Oid, size: Oid -> nat, target: nat)
    requires Cutting(batches, cur, done, size, target) && cur != []
    requires Raw(cur, size) + size(oid) > AtLeastOne(target)
    ensures Raw([], size) == 0 && [] + [oid] == [oid] && Raw([oid], size) == size(oid)
    ensures Cutting(batches + [cur], [oid], done + [oid], size, target)
  {
    NoBatches(size, target);
    hide Concat, Raw, Greedy, BatchOk;
    assert [] + [oid] == [oid];
    RawNext([], oid, size);
    BatchGrows([], oid, size, target);
    ConcatSnoc(batches, cur);
    GreedyClose(batches, cur, oid, size, target);
  }

  lemma CutDone(batches: seq<seq<Oid>>, cur: seq<Oid>, done: seq<Oid>, size: Oid -> nat, target: nat)
    requires Cutting(batches, cur, done, size, target)
    ensures var all := if cur == [] then batches else batches + [cur];
      && Concat(all) == done && Greedy(all, size, target)
      && forall i :: 0 <= i < |all| ==> BatchOk(all[i], size, target)
  {
    ConcatSnoc(batches, cur);
  }

  /** What is added up is never more than all of it. */
  lemma CutIsTail(batches: seq<seq<Oid>>, cur: seq<Oid>, oids: seq<Oid>, k: nat, size: Oid -> nat, target: nat)
    requires k < |oids| && Cutting(batches, cur, oids[..k], size, target)
    ensures Raw(cur, size) + size(oids[k]) <= Raw(oids, size) && size(oids[k]) <= Raw(oids, size)
  {
    hide Concat, Raw, Greedy, BatchOk;
    var oid, rest := oids[k], oids[k + 1..];
    assert oids == oids[..k] + [oid] + rest;
    RawTail(Concat(batches), cur, oid, rest, size);
    RawTail(oids[..k], [], oid, rest, size);
    RawNone(size);
    assert oids[..k] + [] == oids[..k];
  }

  lemma BatchGrows(cur: seq<Oid>, oid: Oid, size: Oid -> nat, target: nat)
    requires cur == [] || Raw(cur, size) + size(oid) <= AtLeastOne(target)
    ensures BatchOk(cur + [oid], size, target)
  {
    RawNext(cur, oid, size);
  }

  lemma RawNext(ids: seq<Oid>, oid: Oid, size: Oid -> nat)
    ensures Raw(ids + [oid], size) == Raw(ids, size) + size(oid)
  {
    assert (ids + [oid])[..|ids|] == ids;
  }

  lemma {:induction false} RawAppend(a: seq<Oid>, b: seq<Oid>, size: Oid -> nat)
    ensures Raw(a + b, size) == Raw(a, size) + Raw(b, size)
  {
    if b == [] {
      assert a + b == a;
    } else {
      RawAppend(a, b[..|b| - 1], size);
      assert (a + b)[..|a + b| - 1] == a + b[..|b| - 1];
    }
  }

  lemma RawNone(size: Oid -> nat)
    ensures Raw([], size) == 0
  {}

  lemma RawTail(front: seq<Oid>, cur: seq<Oid>, oid: Oid, rest: seq<Oid>, size: Oid -> nat)
    ensures Raw(cur, size) + size(oid) <= Raw(front + cur + [oid] + rest, size)
  {
    hide Raw;
    RawAppend(front, cur, size);
    RawNext(front + cur, oid, size);
    RawAppend(front + cur + [oid], rest, size);
  }

  lemma GreedyClose(batches: seq<seq<Oid>>, cur: seq<Oid>, oid: Oid, size: Oid -> nat, target: nat)
    requires Greedy(batches + [cur], size, target) && cur != [] && Raw(cur, size) + size(oid) > AtLeastOne(target)
    ensures Greedy(batches + [cur] + [[oid]], size, target)
  {}

  lemma GreedyGrow(batches: seq<seq<Oid>>, cur: seq<Oid>, oid: Oid, size: Oid -> nat, target: nat)
    requires Greedy(batches + [cur], size, target) && (cur == [] ==> batches == [])
    ensures Greedy(batches + [cur + [oid]], size, target)
  {
    var was, now := batches + [cur], batches + [cur + [oid]];
    forall i, j | 0 <= i < j < |now| && j == i + 1 && now[j] != []
      ensures Raw(now[i], size) + size(now[j][0]) > AtLeastOne(target)
    {
      assert was[i] == now[i] && was[j] != [];
    }
  }

  ghost function IdSet(p: HeadPack): set<Oid> {
    set i | 0 <= i < |p.ids| :: p.ids[i]
  }

  ghost function AllIds(packs: seq<HeadPack>): set<Oid> {
    set k, i | 0 <= k < |packs| && 0 <= i < |packs[k].ids| :: packs[k].ids[i]
  }

  ghost function SetOf(ids: seq<Oid>): set<Oid> {
    set i | 0 <= i < |ids| :: ids[i]
  }

  /** Any two packs have nothing in common. */
  ghost predicate Disjoint(packs: seq<HeadPack>) {
    forall i, j :: 0 <= i < j < |packs| ==> IdSet(packs[i]) !! IdSet(packs[j])
  }

  ghost predicate PacksOk(packs: seq<HeadPack>) {
    (forall i :: 0 <= i < |packs| ==> PackOk(packs[i])) && Disjoint(packs)
  }

  /** Every object of the closure is in a pack, and none in two. */
  ghost predicate HeadOk(packs: seq<HeadPack>, closure: seq<Oid>) {
    PacksOk(packs) && SetOf(closure) <= AllIds(packs)
  }

  lemma {:induction false} AllIdsAppend(a: seq<HeadPack>, b: seq<HeadPack>)
    ensures AllIds(a + b) == AllIds(a) + AllIds(b)
  {
    var c := a + b;
    forall x ensures x in AllIds(c) <==> x in AllIds(a) + AllIds(b) {
      if x in AllIds(a) {
        var k, i :| 0 <= k < |a| && 0 <= i < |a[k].ids| && a[k].ids[i] == x;
        assert c[k].ids[i] == x;
      }
      if x in AllIds(b) {
        var k, i :| 0 <= k < |b| && 0 <= i < |b[k].ids| && b[k].ids[i] == x;
        assert c[|a| + k].ids[i] == x;
      }
    }
  }

  /** Packs with no object in common go together. */
  lemma DisjointAppend(a: seq<HeadPack>, b: seq<HeadPack>)
    requires PacksOk(a) && PacksOk(b) && AllIds(a) !! AllIds(b)
    ensures PacksOk(a + b)
  {
    var c := a + b;
    hide PackOk;
    forall i, j | 0 <= i < j < |c| ensures IdSet(c[i]) !! IdSet(c[j]) {
      if j < |a| {
        assert IdSet(a[i]) !! IdSet(a[j]);
      } else if i >= |a| {
        assert IdSet(b[i - |a|]) !! IdSet(b[j - |a|]);
      } else {
        InAll(a, i);
        InAll(b, j - |a|);
      }
    }
  }

  lemma PacksPrefix(a: seq<HeadPack>, b: seq<HeadPack>)
    requires PacksOk(a + b)
    ensures PacksOk(a)
  {
    hide PackOk;
    assert forall i :: 0 <= i < |a| ==> (a + b)[i] == a[i];
  }

  lemma InAll(packs: seq<HeadPack>, k: nat)
    requires k < |packs|
    ensures IdSet(packs[k]) <= AllIds(packs)
  {
    forall x | x in IdSet(packs[k]) ensures x in AllIds(packs) {
      var i :| 0 <= i < |packs[k].ids| && packs[k].ids[i] == x;
    }
  }

  function PackAll(packer: seq<Oid> -> HeadPack, batches: seq<seq<Oid>>): seq<HeadPack> {
    seq(|batches|, i requires 0 <= i < |batches| => packer(batches[i]))
  }

  /** Packing the batches of a list without duplicates. */
  lemma {:induction false} PackedBatches(packer: seq<Oid> -> HeadPack, batches: seq<seq<Oid>>)
    requires PackerOk(packer) && NoDuplicates(Concat(batches))
    ensures PacksOk(PackAll(packer, batches)) && AllIds(PackAll(packer, batches)) == SetOf(Concat(batches))
  {
    hide PackerOk, PacksOk, NoDuplicates, AllIds, SetOf;
    if batches == [] {
      NothingPacked(packer);
    } else {
      var first, rest := batches[0], batches[1..];
      assert Concat(batches) == first + Concat(rest);
      SplitDuplicates(first, Concat(rest));
      PackedBatches(packer, rest);
      var p := packer(first);
      assert PackAll(packer, batches) == [p] + PackAll(packer, rest);
      OnePack(packer, first);
      AllIdsAppend([p], PackAll(packer, rest));
      DisjointAppend([p], PackAll(packer, rest));
      SetOfAppend(first, Concat(rest));
    }
  }

  lemma NothingPacked(packer: seq<Oid> -> HeadPack)
    ensures PacksOk(PackAll(packer, [])) && AllIds(PackAll(packer, [])) == SetOf([])
  {}

  lemma OnePack(packer: seq<Oid> -> HeadPack, ids: seq<Oid>)
    requires PackerOk(packer) && NoDuplicates(ids)
    ensures PacksOk([packer(ids)]) && AllIds([packer(ids)]) == SetOf(ids)
  {
    var p := packer(ids);
    forall x ensures x in AllIds([p]) <==> x in SetOf(ids) {
      assert x in p.ids <==> x in ids;
      if x in p.ids {
        var i :| 0 <= i < |p.ids| && p.ids[i] == x;
        assert [p][0].ids[i] == x;
      }
    }
  }

  lemma SplitDuplicates(a: seq<Oid>, b: seq<Oid>)
    requires NoDuplicates(a + b)
    ensures NoDuplicates(a) && NoDuplicates(b) && SetOf(a) !! SetOf(b)
  {
    var c := a + b;
    forall i, j | 0 <= i < j < |b| ensures b[i] != b[j] {
      assert c[|a| + i] != c[|a| + j];
    }
    forall i, j | 0 <= i < j < |a| ensures a[i] != a[j] {
      assert c[i] != c[j];
    }
    forall i, j | 0 <= i < |a| && 0 <= j < |b| ensures a[i] != b[j] {
      assert c[i] != c[|a| + j];
    }
  }

  lemma SetOfAppend(a: seq<Oid>, b: seq<Oid>)
    ensures SetOf(a + b) == SetOf(a) + SetOf(b)
  {
    var c := a + b;
    assert forall j :: 0 <= j < |b| ==> c[|a| + j] == b[j];
    assert forall i :: 0 <= i < |a| ==> c[i] == a[i];
    forall x | x in SetOf(a) ensures x in SetOf(c) {
      var i :| 0 <= i < |a| && a[i] == x;
      assert c[i] == x;
    }
  }

  /** Pack a list of objects in batches. */
  method BuildPacksFromOids(oids: seq<Oid>, size: Oid -> nat, target: nat, packer: seq<Oid> -> HeadPack)
    returns (r: Result<seq<HeadPack>>)
    requires PackerOk(packer) && NoDuplicates(oids)
    ensures r.Ok? ==> PacksOk(r.value) && AllIds(r.value) == SetOf(oids)
    ensures Raw(oids, size) <= U64_MAX ==> r.Ok?
  {
    hide PackerOk, PacksOk, NoDuplicates, Concat, Greedy, BatchOk;
    var batches := Partition(oids, size, target);
    if batches.Err? {
      return Err(batches.error);
    }
    PackedBatches(packer, batches.value);
    return Ok(PackAll(packer, batches.value));
  }

  lemma FilterIds(ids: seq<Oid>, keep: Oid -> bool)
    requires NoDuplicates(ids)
    ensures NoDuplicates(Filter(ids, keep))
    ensures forall x :: x in SetOf(Filter(ids, keep)) <==> x in SetOf(ids) && keep(x)
  {
    FilterOnce(ids, keep);
    forall x ensures x in SetOf(Filter(ids, keep)) <==> x in SetOf(ids) && keep(x) {
      FilterHas(ids, keep, x);
      assert x in SetOf(Filter(ids, keep)) <==> x in Filter(ids, keep);
      assert x in SetOf(ids) <==> x in ids;
    }
  }

  lemma {:induction false} FilterOnce(ids: seq<Oid>, keep: Oid -> bool)
    requires NoDuplicates(ids)
    ensures NoDuplicates(Filter(ids, keep))
  {
    if ids != [] {
      var n := |ids| - 1;
      FilterOnce(ids[..n], keep);
      var front := Filter(ids[..n], keep);
      forall i | 0 <= i < |front| ensures front[i] != ids[n] {
        FilterHas(ids[..n], keep, front[i]);
      }
    }
  }

  /** The Head packs of a commit: the base and the levels on it. */
  class HeadStore {
    const packer: seq<Oid> -> HeadPack
    const size: Oid -> nat
    const target: nat
    var base: seq<HeadPack>
    var levels: seq<HeadPack>

    constructor (packer: seq<Oid> -> HeadPack, size: Oid -> nat, target: nat)
      ensures this.packer == packer && this.size == size && this.target == target && base == [] && levels == []
    {
      this.packer, this.size, this.target := packer, size, target;
      base, levels := [], [];
    }

    /** Pack the whole closure as the base. */
    method Cold(closure: seq<Oid>) returns (r: Result<()>)
      requires PackerOk(packer) && NoDuplicates(closure)
      modifies this
      ensures r.Ok? ==> HeadOk(base + levels, closure) && AllIds(base) == SetOf(closure) && levels == []
      ensures r.Err? ==> base == old(base) && levels == old(levels)
      ensures closure != [] && Raw(closure, size) <= U64_MAX ==> r.Ok?
    {
      hide PackerOk, PacksOk, NoDuplicates, AllIds, SetOf;
      if closure == [] {
        return Err(NoFrames);
      }
      var packs := BuildPacksFromOids(closure, size, target, packer);
      if packs.Err? {
        return Err(packs.error);
      }
      base, levels := packs.value, [];
      assert base + levels == base;
      return Ok(());
    }

    /** Add a level: the objects of the closure no pack has. */
    method AddLevel(closure: seq<Oid>) returns (r: Result<()>)
      requires PackerOk(packer) && NoDuplicates(closure) && PacksOk(base + levels)
      modifies this
      ensures base == old(base)
      ensures r.Ok? ==> HeadOk(base + levels, closure) && old(levels) <= levels
      ensures r.Ok? ==> AllIds(base + levels) == old(AllIds(base + levels)) + SetOf(closure)
      ensures r.Ok? ==> AllIds(levels[|old(levels)|..]) == SetOf(closure) - old(AllIds(base + levels))
      ensures r.Err? ==> levels == old(levels)
      ensures closure != [] && Raw(closure, size) <= U64_MAX ==> r.Ok?
    {
      hide PackerOk, PacksOk, NoDuplicates, AllIds, SetOf, Missing, Raw;
      if closure == [] {
        return Err(NoFrames);
      }
      var have := base + levels;
      var level := Missing(have, closure);
      MissingIs(have, closure, size);
      var packs := BuildPacksFromOids(level, size, target, packer);
      if packs.Err? {
        return Err(packs.error);
      }
      DisjointAppend(have, packs.value);
      AllIdsAppend(have, packs.value);
      assert base + (levels + packs.value) == have + packs.value;
      ghost var before := levels;
      levels := levels + packs.value;
      assert levels[|before|..] == packs.value;
      return Ok(());
    }

    /** Replace base and levels by a base alone: first the packs that stay, whose
        number is the result, then new ones for whatever they lack. */
    method Rebase(closure: seq<Oid>) returns (r: Result<nat>)
      requires PackerOk(packer) && NoDuplicates(closure) && PacksOk(base + levels)
      modifies this
      ensures r.Ok? ==> HeadOk(base + levels, closure) && levels == []
      ensures r.Ok? ==> r.value <= |base| && base[..r.value] == Kept(old(base), closure)
      ensures r.Ok? ==> AllIds(base[r.value..]) <= SetOf(closure)
      ensures r.Err? ==> base == old(base) && levels == old(levels)
      ensures closure != [] && Raw(closure, size) <= U64_MAX ==> r.Ok?
    {
      hide PackerOk, PacksOk, NoDuplicates, AllIds, SetOf, Missing, Raw, Kept;
      if closure == [] {
        return Err(NoFrames);
      }
      PacksPrefix(base, levels);
      var kept := KeepPacks(base, closure);
      var rest := Missing(kept, closure);
      MissingIs(kept, closure, size);
      KeptOk(base, closure);
      var packs := BuildPacksFromOids(rest, size, target, packer);
      if packs.Err? {
        return Err(packs.error);
      }
      DisjointAppend(kept, packs.value);
      AllIdsAppend(kept, packs.value);
      base, levels := kept + packs.value, [];
      assert base + levels == base;
      assert base[..|kept|] == kept && base[|kept|..] == packs.value;
      return Ok(|kept|);
    }
  }

  /** One of the packs has the object. */
  predicate Has(packs: seq<HeadPack>, x: Oid) {
    exists k :: 0 <= k < |packs| && x in packs[k].ids
  }

  /** The objects of the closure the packs lack. */
  function Missing(packs: seq<HeadPack>, closure: seq<Oid>): seq<Oid> {
    Filter(closure, (x: Oid) => !Has(packs, x))
  }

  lemma MissingIs(packs: seq<HeadPack>, closure: seq<Oid>, size: Oid -> nat)
    requires NoDuplicates(closure)
    ensures NoDuplicates(Missing(packs, closure)) && SetOf(Missing(packs, closure)) == SetOf(closure) - AllIds(packs)
    ensures Raw(Missing(packs, closure), size) <= Raw(closure, size)
  {
    HasAll(packs);
    FilterIds(closure, (x: Oid) => !Has(packs, x));
    FilterRaw(closure, size, (x: Oid) => !Has(packs, x));
  }

  lemma HasAll(packs: seq<HeadPack>)
    ensures forall x :: Has(packs, x) <==> x in AllIds(packs)
  {
    forall x ensures Has(packs, x) <==> x in AllIds(packs) {
      if Has(packs, x) {
        var k :| 0 <= k < |packs| && x in packs[k].ids;
        var i :| 0 <= i < |packs[k].ids| && packs[k].ids[i] == x;
      }
    }
  }

  lemma {:induction false} FilterRaw(ids: seq<Oid>, size: Oid -> nat, keep: Oid -> bool)
    ensures Raw(Filter(ids, keep), size) <= Raw(ids, size)
  {
    if ids != [] {
      var n := |ids| - 1;
      FilterRaw(ids[..n], size, keep);
      RawNext(Filter(ids[..n], keep), ids[n], size);
      if !keep(ids[n]) {
        assert Filter(ids, keep) == Filter(ids[..n], keep);
      }
    }
  }

  /** The bytes of a pack the closure no longer uses. */
  function DeadBytes(p: HeadPack, closure: seq<Oid>): nat {
    var count := if |p.ids| < |p.sizes| then |p.ids| else |p.sizes|;
    Sum(seq(count, i requires 0 <= i < count => if p.ids[i] in closure then 0 else p.sizes[i]))
  }

  /** Ten times the dead bytes still fit the pack. */
  predicate FewDead(p: HeadPack, closure: seq<Oid>) {
    DeadBytes(p, closure) * 10 <= p.len
  }

  function Kept(base: seq<HeadPack>, closure: seq<Oid>): seq<HeadPack> {
    Filter(base, (p: HeadPack) => FewDead(p, closure))
  }

  method KeepPacks(base: seq<HeadPack>, closure: seq<Oid>) returns (kept: seq<HeadPack>)
    ensures kept == Kept(base, closure)
  {
    kept := [];
    for i := 0 to |base|
      invariant kept == Kept(base[..i], closure)
    {
      assert base[..i + 1][..i] == base[..i];
      if FewDead(base[i], closure) {
        kept := kept + [base[i]];
      }
    }
    assert base[..|base|] == base;
  }

  lemma {:induction false} KeptOk(base: seq<HeadPack>, closure: seq<Oid>)
    requires PacksOk(base)
    ensures PacksOk(Kept(base, closure)) && AllIds(Kept(base, closure)) <= AllIds(base)
    ensures forall i :: 0 <= i < |Kept(base, closure)| ==>
      Kept(base, closure)[i] in base && FewDead(Kept(base, closure)[i], closure)
  {
    hide PackOk, FewDead;
    if base != [] {
      var n := |base| - 1;
      var front, last := base[..n], base[n];
      KeptOk(front, closure);
      AllIdsAppend(front, [last]);
      assert base == front + [last];
      assert AllIds([last]) == IdSet(last) by { InAll([last], 0); }
      forall x | x in AllIds(front) ensures x !in IdSet(last) {
        var k, i :| 0 <= k < n && 0 <= i < |front[k].ids| && front[k].ids[i] == x;
        assert IdSet(base[k]) !! IdSet(base[n]);
      }
      if FewDead(last, closure) {
        DisjointAppend(Kept(front, closure), [last]);
        AllIdsAppend(Kept(front, closure), [last]);
      }
    }
  }
}
