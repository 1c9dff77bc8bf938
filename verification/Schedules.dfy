/** Which fragments each frame brings, and every way the writer threads can take
    them (rust/src/manifest.rs, `fragments_by_frame`; rust/src/extract.rs). */
module Schedules {
  import opened Clonepack
  import opened Seqs
  import opened Fragments
  import opened Extracts

  function FileRefs(i: nat, n: nat): seq<Ref> {
    seq(n, j requires 0 <= j < n => Ref(i, j))
  }

  /** All fragments, file by file. */
  function AllRefs(files: seq<FileEntry>): seq<Ref> {
    if files == [] then [] else
      AllRefs(files[..|files| - 1]) + FileRefs(|files| - 1, |files[|files| - 1].fragments|)
  }

  lemma {:induction false} AllRefsValid(files: seq<FileEntry>)
    ensures forall n :: 0 <= n < |AllRefs(files)| ==> IsRef(files, AllRefs(files)[n])
  {
    if files != [] {
      AllRefsValid(files[..|files| - 1]);
    }
  }

  function FrameOf(files: seq<FileEntry>, r: Ref): nat {
    if IsRef(files, r) then files[r.file].fragments[r.frag].frameIndex else 0
  }

  /** Those of `refs` in frame `k`, in order. */
  function OfFrame(files: seq<FileEntry>, refs: seq<Ref>, k: nat): seq<Ref> {
    if refs == [] then [] else
      OfFrame(files, refs[..|refs| - 1], k) + if FrameOf(files, refs[|refs| - 1]) == k then [refs[|refs| - 1]] else []
  }

  function Get(m: map<nat, seq<Ref>>, k: nat): seq<Ref> {
    if k in m then m[k] else []
  }

  lemma OfFrameNext(files: seq<FileEntry>, refs: seq<Ref>, r: Ref, k: nat)
    ensures OfFrame(files, refs + [r], k) == OfFrame(files, refs, k) + if FrameOf(files, r) == k then [r] else []
  {
    assert (refs + [r])[..|refs|] == refs;
  }

  /** Group the fragments by frame: each frame lists its own, in file order. */
  method FragmentsByFrame(files: seq<FileEntry>) returns (m: map<nat, seq<Ref>>)
    ensures forall k: nat :: Get(m, k) == OfFrame(files, AllRefs(files), k)
  {
    hide OfFrame;
    m := map[];
    ghost var refs: seq<Ref> := [];
    NoRefs(files);
    for i := 0 to |files|
      invariant refs == AllRefs(files[..i])
      invariant forall k: nat :: Get(m, k) == OfFrame(files, refs, k)
    {
      assert files[..i + 1][..i] == files[..i];
      ghost var before := refs;
      for j := 0 to |files[i].fragments|
        invariant refs == before + FileRefs(i, |files[i].fragments|)[..j]
        invariant forall k: nat :: Get(m, k) == OfFrame(files, refs, k)
      {
        var key := files[i].fragments[j].frameIndex;
        forall k: nat
          ensures OfFrame(files, refs + [Ref(i, j)], k) == OfFrame(files, refs, k) + if k == key then [Ref(i, j)]
          else []
        {
          OfFrameNext(files, refs, Ref(i, j), k);
        }
        m := m[key := Get(m, key) + [Ref(i, j)]];
        refs := refs + [Ref(i, j)];
      }
    }
    assert files[..|files|] == files;
  }

  lemma NoRefs(files: seq<FileEntry>)
    ensures AllRefs(files[..0]) == [] && forall k: nat :: OfFrame(files, [], k) == []
  {}

  /** The fragments of each of `n` frames, as the writer that takes the frame goes
      through them. */
  function Queues(files: seq<FileEntry>, refs: seq<Ref>, n: nat): seq<seq<Ref>> {
    seq(n, k requires 0 <= k < n => OfFrame(files, refs, k))
  }

  /** A schedule: at each step one frame's writer takes its next fragment, until
      none are left. Frames may start in any order and run at the same time. */
  ghost predicate FullSchedule(queues: seq<seq<Ref>>, sched: seq<nat>)
    decreases |sched|
  {
    if sched == [] then forall k :: 0 <= k < |queues| ==> queues[k] == [] else
      var k := sched[0];
      k < |queues| && queues[k] != [] && FullSchedule(queues[k := queues[k][1..]], sched[1..])
  }

  /** The order in which a schedule takes the fragments. */
  ghost function Merge(queues: seq<seq<Ref>>, sched: seq<nat>): seq<Ref>
    requires FullSchedule(queues, sched)
    decreases |sched|
  {
    if sched == [] then [] else
      var k := sched[0];
      [queues[k][0]] + Merge(queues[k := queues[k][1..]], sched[1..])
  }

  lemma ConcatUpdate(queues: seq<seq<Ref>>, k: nat, q: seq<Ref>)
    requires k < |queues|
    ensures multiset(Concat(queues[k := q])) + multiset(queues[k]) == multiset(Concat(queues)) + multiset(q)
  {
    var a, b := queues[..k], queues[k + 1..];
    assert queues == a + [queues[k]] + b && queues[k := q] == a + [q] + b;
    ConcatAppend(a + [queues[k]], b);
    ConcatSnoc(a, queues[k]);
    ConcatAppend(a + [q], b);
    ConcatSnoc(a, q);
  }

  lemma {:induction false} ConcatEmpty(queues: seq<seq<Ref>>)
    requires forall k :: 0 <= k < |queues| ==> queues[k] == []
    ensures Concat(queues) == []
  {
    if queues != [] {
      ConcatEmpty(queues[1..]);
    }
  }

  lemma Cancel(a: multiset<Ref>, b: multiset<Ref>, c: multiset<Ref>, d: multiset<Ref>)
    requires a + (b + c) == d + c
    ensures a + b == d
  {
    forall x ensures (a + b)[x] == d[x] {
      assert (a + (b + c))[x] == (d + c)[x];
    }
  }

  /** Taking the first of one queue. */
  lemma TakeFirst(queues: seq<seq<Ref>>, k: nat, rest: seq<Ref>)
    requires k < |queues| && queues[k] != []
    requires multiset(rest) == multiset(Concat(queues[k := queues[k][1..]]))
    ensures multiset([queues[k][0]] + rest) == multiset(Concat(queues))
  {
    var first, others := queues[k][0], queues[k][1..];
    ConcatUpdate(queues, k, others);
    assert queues[k] == [first] + others;
    Cancel(multiset(rest), multiset{first}, multiset(others), multiset(Concat(queues)));
  }

  /** A schedule takes every queued fragment, as often as it is queued. */
  lemma {:induction false} MergeKeeps(queues: seq<seq<Ref>>, sched: seq<nat>)
    requires FullSchedule(queues, sched)
    ensures multiset(Merge(queues, sched)) == multiset(Concat(queues))
    decreases |sched|
  {
    hide Concat;
    if sched == [] {
      ConcatEmpty(queues);
    } else {
      var k := sched[0];
      var rest := queues[k := queues[k][1..]];
      MergeKeeps(rest, sched[1..]);
      TakeFirst(queues, k, Merge(rest, sched[1..]));
    }
  }

  /** One more fragment goes to the end of its own frame's queue. */
  lemma QueuesNext(files: seq<FileEntry>, refs: seq<Ref>, r: Ref, n: nat)
    requires FrameOf(files, r) < n
    ensures var before, k := Queues(files, refs, n), FrameOf(files, r);
      Queues(files, refs + [r], n) == before[k := before[k] + [r]]
  {
    hide OfFrame, FrameOf;
    forall k: nat | k < n
      ensures OfFrame(files, refs + [r], k) == OfFrame(files, refs, k) + if FrameOf(files, r) == k then [r] else []
    {
      OfFrameNext(files, refs, r, k);
    }
    var before, at := Queues(files, refs, n), FrameOf(files, r);
    var next, after := before[at := before[at] + [r]], Queues(files, refs + [r], n);
    assert forall k :: 0 <= k < n ==> after[k] == next[k];
  }

  lemma AddLast(queues: seq<seq<Ref>>, k: nat, r: Ref, refs: seq<Ref>)
    requires k < |queues| && multiset(Concat(queues)) == multiset(refs)
    ensures multiset(Concat(queues[k := queues[k] + [r]])) == multiset(refs + [r])
  {
    ConcatUpdate(queues, k, queues[k] + [r]);
    Cancel(multiset(refs), multiset{r}, multiset(queues[k]), multiset(Concat(queues[k := queues[k] + [r]])));
  }

  /** Queueing by frame loses no fragment. */
  lemma {:induction false} QueuesKeep(files: seq<FileEntry>, refs: seq<Ref>, n: nat)
    requires forall i :: 0 <= i < |refs| ==> FrameOf(files, refs[i]) < n
    ensures multiset(Concat(Queues(files, refs, n))) == multiset(refs)
  {
    hide Concat, FrameOf;
    if refs == [] {
      ConcatEmpty(Queues(files, refs, n));
    } else {
      var front, r := refs[..|refs| - 1], refs[|refs| - 1];
      QueuesKeep(files, front, n);
      QueuesNext(files, front, r, n);
      AddLast(Queues(files, front, n), FrameOf(files, r), r, front);
      assert refs == front + [r];
    }
  }

  lemma {:induction false} FileRefsOnce(i: nat, n: nat, r: Ref)
    ensures multiset(FileRefs(i, n))[r] == if r.file == i && r.frag < n then 1 else 0
  {
    if n > 0 {
      FileRefsOnce(i, n - 1, r);
      assert FileRefs(i, n) == FileRefs(i, n - 1) + [Ref(i, n - 1)];
    }
  }

  /** Every fragment is listed once. */
  lemma {:induction false} AllRefsOnce(files: seq<FileEntry>, r: Ref)
    ensures multiset(AllRefs(files))[r] == if IsRef(files, r) then 1 else 0
  {
    if files != [] {
      var n := |files| - 1;
      AllRefsOnce(files[..n], r);
      FileRefsOnce(n, |files[n].fragments|, r);
    }
  }

  lemma OnceFromCounts(order: seq<Ref>)
    requires forall r: Ref :: multiset(order)[r] <= 1
    ensures EachOnce(order)
  {
    forall a, b | 0 <= a < b < |order| ensures order[a] != order[b] {
      var front, back := order[..b], order[b..];
      assert order == front + back;
      assert front[a] in multiset(front) && back[0] in multiset(back);
      assert multiset(order)[order[a]] == multiset(front)[order[a]] + multiset(back)[order[a]];
    }
  }

  /** Every schedule takes every fragment exactly once. */
  lemma ScheduleTakesAll(files: seq<FileEntry>, n: nat, sched: seq<nat>)
    requires forall i, j :: 0 <= i < |files| && 0 <= j < |files[i].fragments| ==> files[i].fragments[j].frameIndex < n
    requires FullSchedule(Queues(files, AllRefs(files), n), sched)
    ensures var order := Merge(Queues(files, AllRefs(files), n), sched);
      && EachOnce(order)
      && (forall k :: 0 <= k < |order| ==> IsRef(files, order[k]))
      && (forall r: Ref :: IsRef(files, r) ==> r in Taken(order))
  {
    hide FullSchedule, Merge, Queues, OfFrame, AllRefs;
    AllRefsValid(files);
    QueuesKeep(files, AllRefs(files), n);
    MergeKeeps(Queues(files, AllRefs(files), n), sched);
    var order := Merge(Queues(files, AllRefs(files), n), sched);
    forall r: Ref ensures multiset(order)[r] == if IsRef(files, r) then 1 else 0 {
      AllRefsOnce(files, r);
    }
    OnceFromCounts(order);
    forall k | 0 <= k < |order| ensures IsRef(files, order[k]) {
      assert order[k] in multiset(order);
    }
    forall r: Ref | IsRef(files, r) ensures r in Taken(order) {
      assert r in multiset(order);
      var k :| 0 <= k < |order| && order[k] == r;
    }
  }

  ghost predicate WholeFile(files: seq<FileEntry>, raws: seq<Bytes>, w: Written) {
    w.file < |files| && w.content == Read(files[w.file].fragments, raws)
  }

  /** The extractor's confluence: whichever way the writers interleave, no step
      fails, nothing is left pending, and every file is written once and whole. */
  lemma Confluence(env: Env, files: seq<FileEntry>, raws: seq<Bytes>, sched: seq<nat>)
    requires Good(env, files, raws)
    requires FullSchedule(Queues(files, AllRefs(files), |raws|), sched)
    ensures var order := Merge(Queues(files, AllRefs(files), |raws|), sched);
      && (forall k :: 0 <= k < |order| ==> IsRef(files, order[k]))
      && var r := Run(env, files, raws, order);
      && r.Ok? && r.value.pending == map[]
      && |r.value.written| == |files|
      && (forall a, b :: 0 <= a < b < |files| ==> r.value.written[a].file != r.value.written[b].file)
      && (forall a :: 0 <= a < |files| ==> WholeFile(files, raws, r.value.written[a]))
  {
    hide FullSchedule, Merge, Queues, OfFrame, AllRefs, Run, Read;
    forall i, j | 0 <= i < |files| && 0 <= j < |files[i].fragments| ensures files[i].fragments[j].frameIndex < |raws| {
      assert GoodFile(env, files[i], raws);
    }
    ScheduleTakesAll(files, |raws|, sched);
    var order := Merge(Queues(files, AllRefs(files), |raws|), sched);
    AnyOrder(env, files, raws, order);
    AllWritten(files, raws, Taken(order), Run(env, files, raws, order).value);
  }

  /** Once every fragment has come, every file is written. */
  lemma AllWritten(files: seq<FileEntry>, raws: seq<Bytes>, done: set<Ref>, st: State)
    requires Consistent(files, raws, done, st)
    requires forall r: Ref :: IsRef(files, r) ==> r in done
    ensures st.pending == map[] && |st.written| == |files|
    ensures forall a, b :: 0 <= a < b < |files| ==> st.written[a].file != st.written[b].file
    ensures forall a :: 0 <= a < |files| ==> WholeFile(files, raws, st.written[a])
  {
    hide Read;
    forall i | 0 <= i < |files| ensures Complete(files, i, done) && i !in st.pending && WasWritten(st.written, i) {
      assert FileState(files, raws, i, done, st.pending);
      forall j | 0 <= j < |files[i].fragments| ensures Ref(i, j) in done {
        assert IsRef(files, Ref(i, j));
      }
      assert Complete(files, i, done);
    }
    CountWritten(st.written, |files|);
  }

  /** Distinct files below `n`, all of them there: there are `n`. */
  lemma {:induction false} CountWritten(written: seq<Written>, n: nat)
    requires forall a :: 0 <= a < |written| ==> written[a].file < n
    requires forall a, b :: 0 <= a < b < |written| ==> written[a].file != written[b].file
    requires forall i :: 0 <= i < n ==> WasWritten(written, i)
    ensures |written| == n
  {
    FileSet(written);
    BelowSize(n);
    forall i: nat ensures i in Files(written) <==> i in Below(n) {
      if i < n {
        assert WasWritten(written, i);
      }
    }
    assert Files(written) == Below(n);
  }

  ghost function Files(written: seq<Written>): set<nat> {
    set a | 0 <= a < |written| :: written[a].file
  }

  lemma {:induction false} FileSet(written: seq<Written>)
    requires forall a, b :: 0 <= a < b < |written| ==> written[a].file != written[b].file
    ensures |Files(written)| == |written|
  {
    if written != [] {
      var front, last := written[..|written| - 1], written[|written| - 1];
      FileSet(front);
      assert Files(written) == Files(front) + {last.file} by {
        assert forall a :: 0 <= a < |front| ==> front[a] == written[a];
      }
      assert last.file !in Files(front);
    }
  }

  ghost function Below(n: nat): set<nat> {
    if n == 0 then {} else Below(n - 1) + {n - 1}
  }

  lemma {:induction false} BelowSize(n: nat)
    ensures |Below(n)| == n && forall i: nat :: i in Below(n) <==> i < n
  {
    if n > 0 {
      BelowSize(n - 1);
    }
  }
}
