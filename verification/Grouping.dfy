/** How frames are cut into download bundles (rust/src/archive.rs, `Bundler`). */
module Grouping {
  import opened Clonepack
  import opened Seqs

  type Group = seq<ArchiveFrame>

  /** The hash's text ends in an even byte: a bundle long enough ends here. */
  predicate CutsAfter(chunkHash: Digest) {
    chunkHash != [] && chunkHash[|chunkHash| - 1] % 2 == 0
  }

  /** A group's compressed length. */
  function GroupLen(g: Group): nat {
    if g == [] then 0 else GroupLen(g[..|g| - 1]) + g[|g| - 1].compressedLen
  }

  lemma {:induction false} GroupLenAppend(a: Group, b: Group)
    ensures GroupLen(a + b) == GroupLen(a) + GroupLen(b)
  {
    if b == [] {
      assert a + b == a;
    } else {
      GroupLenAppend(a, b[..|b| - 1]);
      assert (a + b)[..|a + b| - 1] == a + b[..|b| - 1];
    }
  }

  lemma GroupLenNext(g: Group, i: nat)
    requires i < |g|
    ensures GroupLen(g[..i + 1]) == GroupLen(g[..i]) + g[i].compressedLen
  {
    assert g[..i + 1][..i] == g[..i];
  }

  lemma GroupLenFront(g: Group, i: nat)
    requires i <= |g|
    ensures GroupLen(g[..i]) <= GroupLen(g) && (i == 0 ==> GroupLen(g[..i]) == 0)
  {
    GroupLenAppend(g[..i], g[i..]);
    assert g[..i] + g[i..] == g;
  }

  /** The bundles cut so far and the open one. */
  datatype Cuts = Cuts(closed: seq<Group>, open: Group)

  const NoCuts := Cuts([], [])

  function Close(c: Cuts): Cuts {
    if c.open == [] then c else Cuts(c.closed + [c.open], [])
  }

  /** The open group, closed first when the frame would take it past `max`. */
  function Room(c: Cuts, f: ArchiveFrame, max: nat): Cuts {
    if c.open != [] && GroupLen(c.open) + f.compressedLen > max then Close(c) else c
  }

  function Add(c: Cuts, f: ArchiveFrame, min: nat, max: nat): Cuts {
    var len := GroupLen(c.open) + f.compressedLen;
    if len >= max || (len >= min && CutsAfter(f.chunkHash))
    then Cuts(c.closed + [c.open + [f]], [])
    else Cuts(c.closed, c.open + [f])
  }

  function Push(c: Cuts, f: ArchiveFrame, min: nat, max: nat): Cuts {
    Add(Room(c, f, max), f, min, max)
  }

  function PushAll(c: Cuts, fs: seq<ArchiveFrame>, min: nat, max: nat): Cuts {
    if fs == [] then c else Push(PushAll(c, fs[..|fs| - 1], min, max), fs[|fs| - 1], min, max)
  }

  /** The bundles of a whole build. */
  function Bundled(fs: seq<ArchiveFrame>, min: nat, max: nat): seq<Group> {
    Close(PushAll(NoCuts, fs, min, max)).closed
  }

  lemma PushNext(c: Cuts, fs: seq<ArchiveFrame>, f: ArchiveFrame, min: nat, max: nat)
    ensures PushAll(c, fs + [f], min, max) == Push(PushAll(c, fs, min, max), f, min, max)
  {
    assert (fs + [f])[..|fs|] == fs;
  }

  lemma {:induction false} PushAllAppend(c: Cuts, a: seq<ArchiveFrame>, b: seq<ArchiveFrame>, min: nat, max: nat)
    ensures PushAll(c, a + b, min, max) == PushAll(PushAll(c, a, min, max), b, min, max)
  {
    if b == [] {
      assert a + b == a;
    } else {
      PushAllAppend(c, a, b[..|b| - 1], min, max);
      assert (a + b)[..|a + b| - 1] == a + b[..|b| - 1];
    }
  }

  /** No closed group is empty, one over `max` holds a single frame, and two
      neighbours hold at least `min`. */
  ghost predicate Even(gs: seq<Group>, min: nat, max: nat) {
    && (forall g :: 0 <= g < |gs| ==> gs[g] != [] && (GroupLen(gs[g]) > max ==> |gs[g]| == 1))
    && (forall g, h :: 0 <= g < h < |gs| && h == g + 1 ==> GroupLen(gs[g]) + GroupLen(gs[h]) >= min)
  }

  /** `more` bytes after the last closed group keep the groups even. */
  ghost predicate Balanced(c: Cuts, more: nat, min: nat, max: nat) {
    && Even(c.closed, min, max)
    && (c.open != [] ==> GroupLen(c.open) + more <= max)
    && (c.closed != [] ==> GroupLen(c.closed[|c.closed| - 1]) + GroupLen(c.open) + more >= min)
  }

  lemma EvenSnoc(gs: seq<Group>, g: Group, min: nat, max: nat)
    requires Even(gs, min, max)
    requires g != [] && (GroupLen(g) > max ==> |g| == 1)
    requires gs != [] ==> GroupLen(gs[|gs| - 1]) + GroupLen(g) >= min
    ensures Even(gs + [g], min, max)
  {
    hide GroupLen;
  }

  lemma RoomBalanced(c: Cuts, f: ArchiveFrame, min: nat, max: nat)
    requires Balanced(c, 0, min, max) && min <= max
    ensures Balanced(Room(c, f, max), f.compressedLen, min, max)
  {
    if c.open != [] && GroupLen(c.open) + f.compressedLen > max {
      EvenSnoc(c.closed, c.open, min, max);
      hide Even;
      assert Room(c, f, max).closed[|c.closed|] == c.open;
    }
  }

  lemma AddBalanced(c: Cuts, f: ArchiveFrame, min: nat, max: nat)
    requires Balanced(c, f.compressedLen, min, max) && min <= max
    ensures Balanced(Add(c, f, min, max), 0, min, max)
  {
    var open := c.open + [f];
    assert open[..|open| - 1] == c.open;
    assert GroupLen(open) == GroupLen(c.open) + f.compressedLen;
    if GroupLen(open) >= max || (GroupLen(open) >= min && CutsAfter(f.chunkHash)) {
      EvenSnoc(c.closed, open, min, max);
    }
    hide Even;
    assert Add(c, f, min, max).closed == c.closed || Add(c, f, min, max).closed[|c.closed|] == open;
  }

  lemma {:induction false} PushAllBalanced(fs: seq<ArchiveFrame>, min: nat, max: nat)
    requires min <= max
    ensures Balanced(PushAll(NoCuts, fs, min, max), 0, min, max)
  {
    if fs != [] {
      var c, f := PushAll(NoCuts, fs[..|fs| - 1], min, max), fs[|fs| - 1];
      PushAllBalanced(fs[..|fs| - 1], min, max);
      RoomBalanced(c, f, min, max);
      AddBalanced(Room(c, f, max), f, min, max);
      hide Balanced, Room, Add;
    }
  }

  ghost function AllFrames(c: Cuts): seq<ArchiveFrame> {
    Concat(c.closed) + c.open
  }

  lemma CloseFrames(c: Cuts)
    ensures AllFrames(Close(c)) == AllFrames(c)
  {
    ConcatSnoc(c.closed, c.open);
  }

  lemma PushFrames(c: Cuts, f: ArchiveFrame, min: nat, max: nat)
    ensures AllFrames(Push(c, f, min, max)) == AllFrames(c) + [f]
  {
    CloseFrames(c);
    var d := Room(c, f, max);
    assert AllFrames(d) == AllFrames(c);
    ConcatSnoc(d.closed, d.open + [f]);
    hide Room, GroupLen;
  }

  lemma NoFrames()
    ensures AllFrames(NoCuts) == []
  {}

  /** Cutting loses and reorders no frame. */
  lemma {:induction false} PushAllFrames(fs: seq<ArchiveFrame>, min: nat, max: nat)
    ensures AllFrames(PushAll(NoCuts, fs, min, max)) == fs
  {
    hide Push, AllFrames;
    if fs == [] {
      NoFrames();
    } else {
      var front := fs[..|fs| - 1];
      PushAllFrames(front, min, max);
      PushFrames(PushAll(NoCuts, front, min, max), fs[|fs| - 1], min, max);
      assert front + [fs[|fs| - 1]] == fs;
    }
  }

  /** The bundles of a build: all its frames in order, no bundle empty, one over
      `max` holds a single frame, and any two neighbours hold at least `min`. */
  lemma BundledShape(fs: seq<ArchiveFrame>, min: nat, max: nat)
    requires min <= max
    ensures var gs := Bundled(fs, min, max);
      && Concat(gs) == fs
      && Even(gs, min, max)
  {
    var c := PushAll(NoCuts, fs, min, max);
    PushAllBalanced(fs, min, max);
    PushAllFrames(fs, min, max);
    CloseFrames(c);
    if c.open != [] {
      EvenSnoc(c.closed, c.open, min, max);
    }
    hide Even;
  }

  function TotalLen(gs: seq<Group>): nat {
    if gs == [] then 0 else GroupLen(gs[0]) + TotalLen(gs[1..])
  }

  lemma {:induction false} TotalLenConcat(gs: seq<Group>)
    ensures TotalLen(gs) == GroupLen(Concat(gs))
  {
    if gs != [] {
      TotalLenConcat(gs[1..]);
      GroupLenAppend(gs[0], Concat(gs[1..]));
    }
  }

  lemma {:induction false} PairsBound(gs: seq<Group>, min: nat)
    requires forall g, h :: 0 <= g < h < |gs| && h == g + 1 ==> GroupLen(gs[g]) + GroupLen(gs[h]) >= min
    ensures (|gs| / 2) * min <= TotalLen(gs)
  {
    if |gs| >= 2 {
      var rest := gs[2..];
      assert gs[1..][1..] == rest;
      assert forall i :: 0 <= i < |rest| ==> rest[i] == gs[i + 2];
      PairsBound(rest, min);
      assert |gs| / 2 == |rest| / 2 + 1;
      assert (|rest| / 2 + 1) * min == (|rest| / 2) * min + min;
      assert TotalLen(gs) == GroupLen(gs[0]) + GroupLen(gs[1]) + TotalLen(rest);
    }
  }

  /** A build of `total` compressed bytes has at most `2 * total / min + 1` bundles. */
  lemma BundleCount(fs: seq<ArchiveFrame>, min: nat, max: nat)
    requires 0 < min <= max
    ensures |Bundled(fs, min, max)| <= 2 * GroupLen(fs) / min + 1
  {
    var gs := Bundled(fs, min, max);
    BundledShape(fs, min, max);
    PairsBound(gs, min);
    TotalLenConcat(gs);
    DivideUp(|gs|, GroupLen(fs), min);
  }

  lemma DivideUp(n: nat, total: nat, min: nat)
    requires min > 0
    requires (n / 2) * min <= total
    ensures n <= 2 * total / min + 1
  {
    var q := 2 * total / min;
    assert (2 * (n / 2)) * min <= 2 * total;
    if q < 2 * (n / 2) {
      MulOrder(q + 1, 2 * (n / 2), min);
      assert false;
    }
  }

  /** After an edit the cuts fall in step again: two frame sequences with the same
      rest that both end a bundle before it have the same bundles from there on. */
  lemma Resynchronised(a: seq<ArchiveFrame>, b: seq<ArchiveFrame>, rest: seq<ArchiveFrame>, min: nat, max: nat)
    requires PushAll(NoCuts, a, min, max).open == []
    requires PushAll(NoCuts, b, min, max).open == []
    ensures Bundled(a + rest, min, max) == Bundled(a, min, max) + Bundled(rest, min, max)
    ensures Bundled(b + rest, min, max) == Bundled(b, min, max) + Bundled(rest, min, max)
  {
    PushAllAppend(NoCuts, a, rest, min, max);
    PushAllAppend(NoCuts, b, rest, min, max);
    FreshCuts(PushAll(NoCuts, a, min, max).closed, rest, min, max);
    FreshCuts(PushAll(NoCuts, b, min, max).closed, rest, min, max);
  }

  lemma PushLater(done: seq<Group>, d: Cuts, f: ArchiveFrame, min: nat, max: nat)
    ensures Push(Cuts(done + d.closed, d.open), f, min, max)
         == Cuts(done + Push(d, f, min, max).closed, Push(d, f, min, max).open)
  {
    var e := Room(d, f, max);
    assert Room(Cuts(done + d.closed, d.open), f, max) == Cuts(done + e.closed, e.open);
  }

  /** Bundles already closed do not affect later cuts. */
  lemma {:induction false} FreshCuts(done: seq<Group>, fs: seq<ArchiveFrame>, min: nat, max: nat)
    ensures var c, d := PushAll(Cuts(done, []), fs, min, max), PushAll(NoCuts, fs, min, max);
      c.closed == done + d.closed && c.open == d.open
    ensures Close(PushAll(Cuts(done, []), fs, min, max)).closed == done + Bundled(fs, min, max)
  {
    if fs != [] {
      var front, f := fs[..|fs| - 1], fs[|fs| - 1];
      FreshCuts(done, front, min, max);
      PushLater(done, PushAll(NoCuts, front, min, max), f, min, max);
    }
  }
}
