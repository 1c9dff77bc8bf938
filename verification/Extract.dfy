/** Rebuilding files from frames that arrive in any order
    (rust/src/extract.rs, the writer threads). */
module Extracts {
  import opened Clonepack
  import opened Fragments

  /** Fragment `frag` of file `file`. */
  datatype Ref = Ref(file: nat, frag: nat)

  /** A file of several fragments, some still to come. */
  datatype PendingFile = PendingFile(slots: seq<Option<Bytes>>, remaining: nat)

  datatype Written = Written(file: nat, content: Bytes)

  /** The files still pending and the files written, in order of writing. */
  datatype State = State(pending: map<nat, PendingFile>, written: seq<Written>)

  predicate IsRef(files: seq<FileEntry>, r: Ref) {
    r.file < |files| && r.frag < |files[r.file].fragments|
  }

  /** The contents of the slots, once all are filled. */
  function Collect(slots: seq<Option<Bytes>>): Option<Bytes> {
    if slots == [] then Some([]) else
      var rest := Collect(slots[1..]);
      if slots[0].Some? && rest.Some? then Some(slots[0].value + rest.value) else None
  }

  /** Check a whole file against its blob id and write it. */
  function Write(env: Env, files: seq<FileEntry>, st: State, i: nat, content: Bytes): Result<State>
    requires i < |files|
  {
    if env.blobId(content) != files[i].blob then Err(WrongBlob)
    else Ok(st.(written := st.written + [Written(i, content)]))
  }

  /** Put one fragment in its slot; the last one completes the file. */
  function Fill(env: Env, files: seq<FileEntry>, st: State, r: Ref, content: Bytes): Result<State>
    requires IsRef(files, r)
  {
    if r.file !in st.pending then Err(NotPending) else
      var p := st.pending[r.file];
      if r.frag >= |p.slots| then Err(MissingFragment)
      else if p.slots[r.frag].Some? then Err(DuplicateFragment)
      else if p.remaining == 0 then Err(MissingFragment)
      else
        var slots := p.slots[r.frag := Some(content)];
        if p.remaining > 1 then Ok(st.(pending := st.pending[r.file := PendingFile(slots, p.remaining - 1)]))
        else
          var whole := Collect(slots);
          if whole.None? then Err(MissingFragment)
          else Write(env, files, st.(pending := st.pending - {r.file}), r.file, whole.value)
  }

  /** Take one fragment from its frame's bytes. */
  function Take(env: Env, files: seq<FileEntry>, raws: seq<Bytes>, st: State, r: Ref): Result<State>
    requires IsRef(files, r)
  {
    var f := files[r.file].fragments[r.frag];
    if !InFrame(f, raws) then Err(PastFrame)
    else if |files[r.file].fragments| == 1 then Write(env, files, st, r.file, Piece(f, raws))
    else Fill(env, files, st, r, Piece(f, raws))
  }

  /** Only files of several fragments wait. */
  function Start(files: seq<FileEntry>): State {
    State(map i: nat | i < |files| && |files[i].fragments| > 1 ::
            PendingFile(seq(|files[i].fragments|, _ => None), |files[i].fragments|), [])
  }

  /** The writers' shared state. */
  class Writer {
    const env: Env
    const files: seq<FileEntry>
    const raws: seq<Bytes>
    var state: State

    constructor (env: Env, files: seq<FileEntry>, raws: seq<Bytes>)
      ensures this.env == env && this.files == files && this.raws == raws && state == Start(files)
    {
      this.env, this.files, this.raws := env, files, raws;
      state := Start(files);
    }

    /** Check a whole file against its blob id and write it. */
    method WriteFile(i: nat, content: Bytes) returns (result: Result<()>)
      requires i < |files|
      modifies this
      ensures EndsAs(Write(env, files, old(state), i, content), result, old(state), state)
    {
      if env.blobId(content) != files[i].blob {
        return Err(WrongBlob);
      }
      state := state.(written := state.written + [Written(i, content)]);
      return Ok(());
    }

    /** One writer's turn: slice the fragment out, then, for a file of several, fill
        its slot under the lock and write the file when it was the last. */
    method TakeFragment(r: Ref) returns (result: Result<()>)
      requires IsRef(files, r)
      modifies this
      ensures EndsAs(Take(env, files, raws, old(state), r), result, old(state), state)
    {
      hide Collect;
      var frags := files[r.file].fragments;
      var f := frags[r.frag];
      if f.frameIndex >= |raws| || f.frameOffset + f.rawLen > |raws[f.frameIndex]| {
        return Err(PastFrame);
      }
      var content := raws[f.frameIndex][f.frameOffset..f.frameOffset + f.rawLen];
      if |frags| == 1 {
        result := WriteFile(r.file, content);
        return;
      }
      if r.file !in state.pending {
        return Err(NotPending);
      }
      var slots, remaining := state.pending[r.file].slots, state.pending[r.file].remaining;
      if r.frag >= |slots| {
        return Err(MissingFragment);
      }
      if slots[r.frag].Some? {
        return Err(DuplicateFragment);
      }
      if remaining == 0 {
        return Err(MissingFragment);
      }
      slots, remaining := slots[r.frag := Some(content)], remaining - 1;
      if remaining > 0 {
        state := state.(pending := state.pending[r.file := PendingFile(slots, remaining)]);
        return Ok(());
      }
      var whole := Gather(slots);
      if whole.None? {
        return Err(MissingFragment);
      }
      if env.blobId(whole.value) != files[r.file].blob {
        return Err(WrongBlob);
      }
      state := State(state.pending - {r.file}, state.written + [Written(r.file, whole.value)]);
      return Ok(());
    }
  }

  /** The turn ends as `next` says: with its state, or with its error and the state
      as it was. */
  ghost predicate EndsAs(next: Result<State>, result: Result<()>, before: State, after: State) {
    if next.Ok? then result.Ok? && after == next.value else result == Err(next.error) && after == before
  }

  /** `content`, then the rest. */
  function After(content: Bytes, rest: Option<Bytes>): Option<Bytes> {
    if rest.Some? then Some(content + rest.value) else None
  }

  lemma AfterNothing(rest: Option<Bytes>)
    ensures After([], rest) == rest
  {
    if rest.Some? {
      assert [] + rest.value == rest.value;
    }
  }

  lemma AfterNext(a: Bytes, b: Bytes, rest: Option<Bytes>)
    ensures After(a, After(b, rest)) == After(a + b, rest)
  {
    if rest.Some? {
      assert a + (b + rest.value) == a + b + rest.value;
    }
  }

  /** Put the filled slots together. */
  method Gather(slots: seq<Option<Bytes>>) returns (whole: Option<Bytes>)
    ensures whole == Collect(slots)
  {
    var content: Bytes := [];
    assert slots[0..] == slots;
    AfterNothing(Collect(slots));
    for j := 0 to |slots|
      invariant Collect(slots) == After(content, Collect(slots[j..]))
    {
      assert slots[j..][1..] == slots[j + 1..];
      if slots[j].None? {
        return None;
      }
      AfterNext(content, slots[j].value, Collect(slots[j + 1..]));
      content := content + slots[j].value;
    }
    assert slots[|slots|..] == [] && content + [] == content;
    return Some(content);
  }

  /** Every fragment lies in its frame, and each file's fragments are its blob's bytes. */
  ghost predicate Good(env: Env, files: seq<FileEntry>, raws: seq<Bytes>) {
    forall i :: 0 <= i < |files| ==> GoodFile(env, files[i], raws)
  }

  ghost predicate GoodFile(env: Env, f: FileEntry, raws: seq<Bytes>) {
    && f.fragments != []
    && (forall j :: 0 <= j < |f.fragments| ==> InFrame(f.fragments[j], raws))
    && env.blobId(Read(f.fragments, raws)) == f.blob
  }

  /** All of file `i`'s fragments have been taken. */
  ghost predicate Complete(files: seq<FileEntry>, i: nat, done: set<Ref>)
    requires i < |files|
  {
    forall j :: 0 <= j < |files[i].fragments| ==> Ref(i, j) in done
  }

  function Nones(slots: seq<Option<Bytes>>): nat {
    if slots == [] then 0 else (if slots[0].None? then 1 else 0) + Nones(slots[1..])
  }

  /** The slots of file `i` hold exactly the fragments taken. */
  ghost predicate SlotsOk(files: seq<FileEntry>, raws: seq<Bytes>, i: nat, done: set<Ref>, slots: seq<Option<Bytes>>)
    requires i < |files|
  {
    && |slots| == |files[i].fragments|
    && forall j :: 0 <= j < |slots| ==>
       slots[j] == if Ref(i, j) in done then Some(Piece(files[i].fragments[j], raws)) else None
  }

  /** File `i` waits exactly while some but not all of its several fragments have
      come, and `remaining` is the number of its empty slots. */
  ghost predicate FileState(files: seq<FileEntry>, raws: seq<Bytes>, i: nat, done: set<Ref>,
                            pending: map<nat, PendingFile>)
    requires i < |files|
  {
    if |files[i].fragments| <= 1 || Complete(files, i, done) then i !in pending else
      && i in pending && SlotsOk(files, raws, i, done, pending[i].slots)
      && pending[i].remaining == Nones(pending[i].slots)
  }

  ghost predicate IsWhole(files: seq<FileEntry>, raws: seq<Bytes>, done: set<Ref>, w: Written) {
    && w.file < |files| && Complete(files, w.file, done)
    && w.content == Read(files[w.file].fragments, raws)
  }

  /** The files written are exactly the complete ones, each once and whole. */
  ghost predicate WrittenOk(files: seq<FileEntry>, raws: seq<Bytes>, done: set<Ref>, written: seq<Written>) {
    && (forall a :: 0 <= a < |written| ==> IsWhole(files, raws, done, written[a]))
    && (forall a, b :: 0 <= a < b < |written| ==> written[a].file != written[b].file)
    && (forall i :: 0 <= i < |files| && Complete(files, i, done) ==> WasWritten(written, i))
  }

  ghost predicate WasWritten(written: seq<Written>, i: nat) {
    exists a :: 0 <= a < |written| && written[a].file == i
  }

  ghost predicate Consistent(files: seq<FileEntry>, raws: seq<Bytes>, done: set<Ref>, st: State) {
    && (forall i :: 0 <= i < |files| ==> FileState(files, raws, i, done, st.pending))
    && (forall i :: i in st.pending ==> i < |files|)
    && WrittenOk(files, raws, done, st.written)
  }

  lemma {:induction false} NonesZero(slots: seq<Option<Bytes>>)
    ensures Nones(slots) == 0 <==> forall j :: 0 <= j < |slots| ==> slots[j].Some?
  {
    if slots != [] {
      NonesZero(slots[1..]);
      assert forall j :: 0 < j < |slots| ==> slots[j] == slots[1..][j - 1];
    }
  }

  lemma {:induction false} NonesFill(slots: seq<Option<Bytes>>, j: nat, x: Bytes)
    requires j < |slots| && slots[j].None?
    ensures Nones(slots) == Nones(slots[j := Some(x)]) + 1
  {
    var filled := slots[j := Some(x)];
    if j == 0 {
      assert filled[1..] == slots[1..];
    } else {
      NonesFill(slots[1..], j - 1, x);
      assert filled[1..] == slots[1..][j - 1 := Some(x)];
    }
  }

  /** Slots that hold every fragment collect to the file. */
  lemma {:induction false} CollectAll(frags: seq<Fragment>, raws: seq<Bytes>, slots: seq<Option<Bytes>>)
    requires |slots| == |frags|
    requires forall j :: 0 <= j < |slots| ==> slots[j] == Some(Piece(frags[j], raws))
    ensures Collect(slots) == Some(Read(frags, raws))
  {
    if slots != [] {
      CollectAll(frags[1..], raws, slots[1..]);
    }
  }

  /** Other files do not notice. */
  lemma OtherFile(files: seq<FileEntry>, raws: seq<Bytes>, i: nat, done: set<Ref>, p: map<nat, PendingFile>,
                  q: map<nat, PendingFile>, r: Ref)
    requires i < |files| && r.file != i && FileState(files, raws, i, done, p)
    requires i in p <==> i in q
    requires i in p ==> p[i] == q[i]
    ensures FileState(files, raws, i, done + {r}, q)
    ensures Complete(files, i, done + {r}) <==> Complete(files, i, done)
  {
    assert forall j :: Ref(i, j) in done + {r} <==> Ref(i, j) in done;
  }

  /** A file not yet complete stays written where others are. */
  lemma WrittenSame(files: seq<FileEntry>, raws: seq<Bytes>, done: set<Ref>, written: seq<Written>, r: Ref)
    requires WrittenOk(files, raws, done, written) && IsRef(files, r) && !Complete(files, r.file, done + {r})
    ensures WrittenOk(files, raws, done + {r}, written)
  {
    assert !Complete(files, r.file, done);
    forall i | 0 <= i < |files| && i != r.file ensures Complete(files, i, done + {r}) <==> Complete(files, i, done) {
      assert forall j :: Ref(i, j) in done + {r} <==> Ref(i, j) in done;
    }
    hide Complete, Read;
  }

  /** The file whose last fragment comes is written once. */
  lemma WrittenNext(files: seq<FileEntry>, raws: seq<Bytes>, done: set<Ref>, written: seq<Written>, r: Ref)
    requires WrittenOk(files, raws, done, written) && IsRef(files, r) && r !in done
      && Complete(files, r.file, done + {r})
    ensures WrittenOk(files, raws, done + {r}, written + [Written(r.file, Read(files[r.file].fragments, raws))])
  {
    assert !Complete(files, r.file, done);
    forall i | 0 <= i < |files| && i != r.file ensures Complete(files, i, done + {r}) <==> Complete(files, i, done) {
      assert forall j :: Ref(i, j) in done + {r} <==> Ref(i, j) in done;
    }
    var next := written + [Written(r.file, Read(files[r.file].fragments, raws))];
    forall i | 0 <= i < |files| && Complete(files, i, done + {r}) ensures WasWritten(next, i) {
      if i == r.file {
        assert next[|written|].file == i;
      } else {
        assert WasWritten(written, i);
        var a :| 0 <= a < |written| && written[a].file == i;
        assert next[a].file == i;
      }
    }
    hide Complete, Read;
  }

  /** A file of one fragment is written as it comes. */
  lemma TakeOnly(env: Env, files: seq<FileEntry>, raws: seq<Bytes>, done: set<Ref>, st: State, r: Ref)
    requires Consistent(files, raws, done, st) && IsRef(files, r) && r !in done
    requires GoodFile(env, files[r.file], raws) && |files[r.file].fragments| == 1
    ensures var next := Take(env, files, raws, st, r);
      next.Ok? && Consistent(files, raws, done + {r}, next.value)
  {
    var frags := files[r.file].fragments;
    assert frags[1..] == [] && Read(frags, raws) == Piece(frags[0], raws);
    assert r.frag == 0 && Complete(files, r.file, done + {r});
    assert FileState(files, raws, r.file, done, st.pending);
    WrittenNext(files, raws, done, st.written, r);
    var next := Take(env, files, raws, st, r);
    assert next.Ok? && next.value.written == st.written + [Written(r.file, Read(frags, raws))];
    forall i | 0 <= i < |files| && i != r.file ensures FileState(files, raws, i, done + {r}, st.pending) {
      OtherFile(files, raws, i, done, st.pending, st.pending, r);
    }
    hide WrittenOk, Read;
  }

  /** The pending file's next slots. */
  lemma FillSlots(files: seq<FileEntry>, raws: seq<Bytes>, done: set<Ref>, slots: seq<Option<Bytes>>, r: Ref)
    requires IsRef(files, r) && r !in done && SlotsOk(files, raws, r.file, done, slots)
    ensures var filled := slots[r.frag := Some(Piece(files[r.file].fragments[r.frag], raws))];
      && slots[r.frag].None? && SlotsOk(files, raws, r.file, done + {r}, filled)
      && Nones(slots) == Nones(filled) + 1
      && (Nones(filled) == 0 <==> Complete(files, r.file, done + {r}))
      && (Nones(filled) == 0 ==> Collect(filled) == Some(Read(files[r.file].fragments, raws)))
  {
    var filled := slots[r.frag := Some(Piece(files[r.file].fragments[r.frag], raws))];
    NonesFill(slots, r.frag, Piece(files[r.file].fragments[r.frag], raws));
    NonesZero(filled);
    hide Nones, Collect, Read, Piece;
    assert SlotsOk(files, raws, r.file, done + {r}, filled);
    if Complete(files, r.file, done + {r}) {
      CollectAll(files[r.file].fragments, raws, filled);
    } else {
      var j :| 0 <= j < |filled| && Ref(r.file, j) !in done + {r};
      assert filled[j].None?;
    }
  }

  /** One of several fragments fills its slot, and the last one completes the file. */
  lemma TakeOneOfMany(env: Env, files: seq<FileEntry>, raws: seq<Bytes>, done: set<Ref>, st: State, r: Ref)
    requires Consistent(files, raws, done, st) && IsRef(files, r) && r !in done
    requires GoodFile(env, files[r.file], raws) && |files[r.file].fragments| > 1
    ensures var next := Take(env, files, raws, st, r);
      next.Ok? && Consistent(files, raws, done + {r}, next.value)
  {
    hide WrittenOk, Read, Nones, Collect, SlotsOk, Piece;
    assert FileState(files, raws, r.file, done, st.pending);
    assert !Complete(files, r.file, done);
    var p := st.pending[r.file];
    FillSlots(files, raws, done, p.slots, r);
    SlotsCount(files, raws, r.file, done, p.slots);
    var next := Take(env, files, raws, st, r);
    assert next.Ok?;
    if Complete(files, r.file, done + {r}) {
      WrittenNext(files, raws, done, st.written, r);
    } else {
      WrittenSame(files, raws, done, st.written, r);
    }
    forall i | 0 <= i < |files| ensures FileState(files, raws, i, done + {r}, next.value.pending) {
      if i != r.file {
        OtherFile(files, raws, i, done, st.pending, next.value.pending, r);
      }
    }
  }

  lemma SlotsCount(files: seq<FileEntry>, raws: seq<Bytes>, i: nat, done: set<Ref>, slots: seq<Option<Bytes>>)
    requires i < |files| && SlotsOk(files, raws, i, done, slots)
    ensures |slots| == |files[i].fragments|
  {}

  /** Take fragments one after the other. */
  function Run(env: Env, files: seq<FileEntry>, raws: seq<Bytes>, order: seq<Ref>): Result<State>
    requires forall n :: 0 <= n < |order| ==> IsRef(files, order[n])
  {
    if order == [] then Ok(Start(files)) else
      var before := Run(env, files, raws, order[..|order| - 1]);
      if before.Err? then before else Take(env, files, raws, before.value, order[|order| - 1])
  }

  ghost function Taken(order: seq<Ref>): set<Ref> {
    set n | 0 <= n < |order| :: order[n]
  }

  ghost predicate EachOnce(order: seq<Ref>) {
    forall a, b :: 0 <= a < b < |order| ==> order[a] != order[b]
  }

  lemma StartConsistent(files: seq<FileEntry>, raws: seq<Bytes>)
    requires forall i :: 0 <= i < |files| ==> files[i].fragments != []
    ensures Consistent(files, raws, {}, Start(files))
  {
    hide Read;
    forall i | 0 <= i < |files| ensures FileState(files, raws, i, {}, Start(files).pending) && !Complete(files, i, {}) {
      var none: set<Ref> := {};
      assert Ref(i, 0) !in none;
      AllNone(|files[i].fragments|);
    }
  }

  lemma {:induction false} AllNone(n: nat)
    ensures Nones(seq(n, _ => None)) == n
  {
    if n > 0 {
      AllNone(n - 1);
      assert seq<Option<Bytes>>(n, _ => None)[1..] == seq(n - 1, _ => None);
    }
  }

  /** In whatever order the fragments come, each once, no step fails, and the
      state depends only on which have come. */
  lemma {:induction false} AnyOrder(env: Env, files: seq<FileEntry>, raws: seq<Bytes>, order: seq<Ref>)
    requires Good(env, files, raws) && EachOnce(order)
    requires forall n :: 0 <= n < |order| ==> IsRef(files, order[n])
    ensures var r := Run(env, files, raws, order);
      r.Ok? && Consistent(files, raws, Taken(order), r.value)
  {
    hide Consistent, Take;
    if order == [] {
      assert forall i :: 0 <= i < |files| ==> GoodFile(env, files[i], raws);
      StartConsistent(files, raws);
      assert Taken(order) == {};
    } else {
      var front, r := order[..|order| - 1], order[|order| - 1];
      AnyOrder(env, files, raws, front);
      TakenNext(front, r);
      assert front + [r] == order;
      var st := Run(env, files, raws, front).value;
      assert GoodFile(env, files[r.file], raws);
      if |files[r.file].fragments| == 1 {
        TakeOnly(env, files, raws, Taken(front), st, r);
      } else {
        TakeOneOfMany(env, files, raws, Taken(front), st, r);
      }
    }
  }

  lemma TakenNext(order: seq<Ref>, r: Ref)
    ensures Taken(order + [r]) == Taken(order) + {r}
    ensures EachOnce(order + [r]) ==> r !in Taken(order)
  {
    var next := order + [r];
    assert next[|order|] == r;
    forall x | x in Taken(order) ensures x in Taken(next) {
      var n :| 0 <= n < |order| && order[n] == x;
      assert next[n] == x;
    }
    assert forall n :: 0 <= n < |order| ==> next[n] == order[n];
  }
}
