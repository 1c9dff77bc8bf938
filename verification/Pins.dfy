/** Pins against deletion (rust/src/pins.rs; the store's half in rust/src/cas.rs,
    `put_with_hash`, `install`). */
module PinProtocol {
  import opened Clonepack

  type Hash = Digest

  /** What the thread that holds a build's `held` lock is doing: waiting for a
      deletion to end (parked or about to look), between counting a pin and
      holding it, or between letting one go and uncounting it. */
  datatype Stage = Idle | Waiting(hash: Hash, parked: bool) | Counted(hash: Hash) | Releasing(hash: Hash)

  /** `relies` are the artifacts the build found or installed after pinning. */
  datatype Build = Build(held: set<Hash>, stage: Stage, relies: set<Hash>, open: bool)

  datatype State = State(pinned: map<Hash, nat>, deleting: set<Hash>, stored: set<Hash>, builds: map<nat, Build>)

  datatype Action =
    | Open(build: nat)
    | WantPin(build: nat, hash: Hash)
    | Park(build: nat)
    | TakePin(build: nat)
    | Hold(build: nat)
    | Find(build: nat, hash: Hash)
    | Install(build: nat, hash: Hash)
    | Close(build: nat)
    | Drain(build: nat, hash: Hash)
    | Unpin(build: nat)
    | BeginDelete(hash: Hash)
    | Remove(hash: Hash)
    | EndDelete(hash: Hash)

  const Start := State(map[], {}, {}, map[])

  function AddPin(pinned: map<Hash, nat>, h: Hash): map<Hash, nat> {
    pinned[h := (if h in pinned then pinned[h] else 0) + 1]
  }

  function DropPin(pinned: map<Hash, nat>, h: Hash): map<Hash, nat> {
    if h !in pinned then pinned
    else if pinned[h] <= 1 then pinned - {h}
    else pinned[h := pinned[h] - 1]
  }

  /** The end of a deletion wakes the pins parked on it. */
  function Wake(b: Build, h: Hash): Build {
    if b.stage == Waiting(h, true) then b.(stage := Waiting(h, false)) else b
  }

  predicate Enabled(s: State, a: Action) {
    match a
    case Open(b) => b !in s.builds
    case WantPin(b, h) => b in s.builds && s.builds[b].open && s.builds[b].stage.Idle? && h !in s.builds[b].held
    case Park(b) => b in s.builds && s.builds[b].stage.Waiting? && !s.builds[b].stage.parked
      && s.builds[b].stage.hash in s.deleting
    case TakePin(b) => b in s.builds && s.builds[b].stage.Waiting? && !s.builds[b].stage.parked
      && s.builds[b].stage.hash !in s.deleting
    case Hold(b) => b in s.builds && s.builds[b].stage.Counted?
    case Find(b, h) => b in s.builds && s.builds[b].open && h in s.builds[b].held && h in s.stored
    case Install(b, h) => b in s.builds && s.builds[b].open && h in s.builds[b].held
    case Close(b) => b in s.builds && s.builds[b].open && s.builds[b].stage.Idle?
    case Drain(b, h) => b in s.builds && !s.builds[b].open && s.builds[b].stage.Idle? && h in s.builds[b].held
    case Unpin(b) => b in s.builds && s.builds[b].stage.Releasing?
    case BeginDelete(h) => h !in s.pinned && h !in s.deleting
    case Remove(h) => h in s.deleting
    case EndDelete(h) => h in s.deleting
  }

  function SetBuild(s: State, b: nat, build: Build): State {
    s.(builds := s.builds[b := build])
  }

  function Step(s: State, a: Action): State
    requires Enabled(s, a)
  {
    match a
    case Open(b) => SetBuild(s, b, Build({}, Idle, {}, true))
    case WantPin(b, h) => SetBuild(s, b, s.builds[b].(stage := Waiting(h, false)))
    case Park(b) => SetBuild(s, b, s.builds[b].(stage := Waiting(s.builds[b].stage.hash, true)))
    case TakePin(b) =>
      var h := s.builds[b].stage.hash;
      SetBuild(s, b, s.builds[b].(stage := Counted(h))).(pinned := AddPin(s.pinned, h))
    case Hold(b) =>
      var h := s.builds[b].stage.hash;
      SetBuild(s, b, s.builds[b].(stage := Idle, held := s.builds[b].held + {h}))
    case Find(b, h) => SetBuild(s, b, s.builds[b].(relies := s.builds[b].relies + {h}))
    case Install(b, h) => SetBuild(s, b, s.builds[b].(relies := s.builds[b].relies + {h})).(stored := s.stored + {h})
    case Close(b) => SetBuild(s, b, s.builds[b].(open := false, relies := {}))
    case Drain(b, h) => SetBuild(s, b, s.builds[b].(held := s.builds[b].held - {h}, stage := Releasing(h)))
    case Unpin(b) =>
      var h := s.builds[b].stage.hash;
      SetBuild(s, b, s.builds[b].(stage := Idle)).(pinned := DropPin(s.pinned, h))
    case BeginDelete(h) => s.(deleting := s.deleting + {h})
    case Remove(h) => s.(stored := s.stored - {h})
    case EndDelete(h) => s.(deleting := s.deleting - {h}, builds := map b | b in s.builds :: Wake(s.builds[b], h))
  }

  /** The pins and deletions as the server shares them. */
  class Pins {
    var pinned: map<Hash, nat>
    var deleting: set<Hash>

    constructor ()
      ensures pinned == Start.pinned && deleting == Start.deleting
    {
      pinned, deleting := map[], {};
    }

    /** Count a pin, unless the artifact is being deleted: then the caller waits. */
    method TryPin(hash: Hash) returns (done: bool)
      modifies this
      ensures deleting == old(deleting) && done == (hash !in old(deleting))
      ensures pinned == if done then AddPin(old(pinned), hash) else old(pinned)
    {
      if hash in deleting {
        return false;
      }
      pinned := pinned[hash := (if hash in pinned then pinned[hash] else 0) + 1];
      return true;
    }

    method Unpin(hash: Hash)
      modifies this
      ensures deleting == old(deleting) && pinned == DropPin(old(pinned), hash)
    {
      if hash in pinned {
        if pinned[hash] <= 1 {
          pinned := pinned - {hash};
        } else {
          pinned := pinned[hash := pinned[hash] - 1];
        }
      }
    }

    method BeginDelete(hash: Hash) returns (started: bool)
      modifies this
      ensures pinned == old(pinned) && started == (hash !in old(pinned) && hash !in old(deleting))
      ensures deleting == if started then old(deleting) + {hash} else old(deleting)
    {
      if hash in pinned || hash in deleting {
        return false;
      }
      deleting := deleting + {hash};
      return true;
    }

    method EndDelete(hash: Hash)
      modifies this
      ensures pinned == old(pinned) && deleting == old(deleting) - {hash}
    {
      deleting := deleting - {hash};
    }
  }

  /** The shared record is the state's. */
  ghost predicate Matches(pins: Pins, s: State)
    reads pins
  {
    pins.pinned == s.pinned && pins.deleting == s.deleting
  }

  /** Take a step on the shared record: it follows the protocol's state. */
  method Perform(pins: Pins, s: State, a: Action) returns (t: State)
    requires Enabled(s, a) && Matches(pins, s)
    modifies pins
    ensures t == Step(s, a) && Matches(pins, t)
  {
    t := Step(s, a);
    match a {
      case TakePin(b) =>
        var done := pins.TryPin(s.builds[b].stage.hash);
      case Unpin(b) =>
        pins.Unpin(s.builds[b].stage.hash);
      case BeginDelete(h) =>
        var started := pins.BeginDelete(h);
      case EndDelete(h) =>
        pins.EndDelete(h);
      case _ =>
    }
  }

  /** A whole run on a shared record of its own. */
  method PerformAll(actions: seq<Action>) returns (pins: Pins, s: State)
    requires IsRun(Start, actions)
    ensures s == After(Start, actions) && Matches(pins, s)
  {
    hide Enabled, Step;
    pins := new Pins();
    s := Start;
    assert actions[0..] == actions;
    for i := 0 to |actions|
      invariant fresh(pins) && Matches(pins, s)
      invariant IsRun(s, actions[i..]) && After(s, actions[i..]) == After(Start, actions)
    {
      assert actions[i..][1..] == actions[i + 1..];
      s := Perform(pins, s, actions[i]);
    }
  }

  /** The build has a pin of the artifact counted. */
  predicate Holds(b: Build, h: Hash) {
    h in b.held || b.stage == Counted(h) || b.stage == Releasing(h)
  }

  ghost function Holders(builds: map<nat, Build>, h: Hash): set<nat> {
    set b | b in builds && Holds(builds[b], h)
  }

  function Count(pinned: map<Hash, nat>, h: Hash): nat {
    if h in pinned then pinned[h] else 0
  }

  ghost predicate BuildOk(s: State, b: Build) {
    && (b.stage.Counted? || b.stage.Releasing? ==> b.stage.hash !in b.held)
    && (b.stage.Waiting? ==> b.stage.hash !in b.held)
    && (b.stage.Waiting? && b.stage.parked ==> b.stage.hash in s.deleting)
    && b.relies <= b.held && b.relies <= s.stored
    && (!b.open ==> b.relies == {})
  }

  /** An artifact is never both pinned and being deleted; its count is the number
      of builds that hold it; what a build relies on is stored and pinned by it;
      and a parked pin's artifact is being deleted, so its wake-up is to come. */
  ghost predicate Inv(s: State) {
    && (forall h :: h in s.pinned ==> s.pinned[h] > 0 && h !in s.deleting)
    && (forall h :: Count(s.pinned, h) == |Holders(s.builds, h)|)
    && (forall b :: b in s.builds ==> BuildOk(s, s.builds[b]))
  }

  lemma HoldersSet(builds: map<nat, Build>, b: nat, build: Build, h: Hash)
    ensures Holders(builds[b := build], h) == if Holds(build, h) then Holders(builds, h) + {b}
      else Holders(builds, h) - {b}
    ensures b in Holders(builds, h) <==> b in builds && Holds(builds[b], h)
  {}

  /** A step of one build that holds the same as before. */
  lemma SameHolders(s: State, b: nat, build: Build)
    requires Inv(s) && forall h :: Holds(build, h) <==> b in s.builds && Holds(s.builds[b], h)
    ensures forall h :: Holders(s.builds[b := build], h) == Holders(s.builds, h)
  {
    forall h ensures Holders(s.builds[b := build], h) == Holders(s.builds, h) {
      HoldersSet(s.builds, b, build, h);
    }
  }

  /** A pin counted makes one holder more. */
  lemma OneMore(s: State, b: nat, h: Hash, x: Hash)
    requires Inv(s) && b in s.builds && s.builds[b].stage == Waiting(h, false)
    ensures Count(AddPin(s.pinned, h), x) == |Holders(s.builds[b := s.builds[b].(stage := Counted(h))], x)|
  {
    var build := s.builds[b].(stage := Counted(h));
    assert BuildOk(s, s.builds[b]);
    assert Count(s.pinned, x) == |Holders(s.builds, x)|;
    HoldersSet(s.builds, b, build, x);
    hide Holders, Inv;
    if x != h {
      assert Holds(build, x) <==> Holds(s.builds[b], x);
      if b in Holders(s.builds, x) {
        assert Holders(s.builds, x) + {b} == Holders(s.builds, x);
      } else {
        assert Holders(s.builds, x) - {b} == Holders(s.builds, x);
      }
    }
  }

  lemma TakePinKeeps(s: State, b: nat)
    requires Inv(s) && Enabled(s, TakePin(b))
    ensures Inv(Step(s, TakePin(b)))
  {
    hide Holders, Count;
    var t := Step(s, TakePin(b));
    assert BuildOk(s, s.builds[b]);
    forall x ensures Count(t.pinned, x) == |Holders(t.builds, x)| {
      OneMore(s, b, s.builds[b].stage.hash, x);
    }
    forall c | c in t.builds ensures BuildOk(t, t.builds[c]) {
      assert c in s.builds && BuildOk(s, s.builds[c]);
    }
  }

  lemma DropCount(pinned: map<Hash, nat>, h: Hash, x: Hash)
    requires Count(pinned, h) > 0
    ensures Count(DropPin(pinned, h), x) == Count(pinned, x) - if x == h then 1 else 0
  {}

  /** A pin uncounted makes one holder less. */
  lemma OneLess(s: State, b: nat, h: Hash, x: Hash)
    requires Inv(s) && b in s.builds && s.builds[b].stage == Releasing(h)
    ensures Count(DropPin(s.pinned, h), x) == |Holders(s.builds[b := s.builds[b].(stage := Idle)], x)|
  {
    var build := s.builds[b].(stage := Idle);
    assert BuildOk(s, s.builds[b]);
    assert Count(s.pinned, x) == |Holders(s.builds, x)|;
    HoldersSet(s.builds, b, build, x);
    assert Count(s.pinned, h) == |Holders(s.builds, h)|;
    HoldersSet(s.builds, b, build, h);
    hide Holders, Inv, Count, DropPin;
    DropCount(s.pinned, h, x);
    if x == h {
      assert b in Holders(s.builds, x);
    } else {
      assert Holds(build, x) <==> Holds(s.builds[b], x);
      if b in Holders(s.builds, x) {
        assert Holders(s.builds, x) + {b} == Holders(s.builds, x);
      } else {
        assert Holders(s.builds, x) - {b} == Holders(s.builds, x);
      }
    }
  }

  lemma UnpinKeeps(s: State, b: nat)
    requires Inv(s) && Enabled(s, Unpin(b))
    ensures Inv(Step(s, Unpin(b)))
  {
    hide Holders, Count;
    var t := Step(s, Unpin(b));
    assert BuildOk(s, s.builds[b]);
    forall x ensures Count(t.pinned, x) == |Holders(t.builds, x)| {
      OneLess(s, b, s.builds[b].stage.hash, x);
    }
    forall c | c in t.builds ensures BuildOk(t, t.builds[c]) {
      assert c in s.builds && BuildOk(s, s.builds[c]);
    }
  }

  lemma EndDeleteKeeps(s: State, h: Hash)
    requires Inv(s) && Enabled(s, EndDelete(h))
    ensures Inv(Step(s, EndDelete(h)))
  {
    var t := Step(s, EndDelete(h));
    forall x ensures Count(t.pinned, x) == |Holders(t.builds, x)| {
      assert Count(s.pinned, x) == |Holders(s.builds, x)|;
      assert Holders(t.builds, x) == Holders(s.builds, x);
    }
    forall c | c in t.builds ensures BuildOk(t, t.builds[c]) {
      assert c in s.builds && BuildOk(s, s.builds[c]);
    }
  }

  /** A step that moves no pin: the build holds what it held, and nothing it or
      another build relies on is removed. */
  lemma LocalKeeps(s: State, t: State, b: nat, build: Build)
    requires Inv(s) && t == s.(builds := s.builds[b := build], stored := t.stored) && s.stored <= t.stored
    requires BuildOk(t, build) && forall h :: Holds(build, h) <==> b in s.builds && Holds(s.builds[b], h)
    ensures Inv(t)
  {
    SameHolders(s, b, build);
    hide Holders;
    forall h ensures Count(t.pinned, h) == |Holders(t.builds, h)| {
      assert Count(s.pinned, h) == |Holders(s.builds, h)|;
    }
    forall c | c in t.builds ensures BuildOk(t, t.builds[c]) {
      assert c == b || BuildOk(s, s.builds[c]);
    }
  }

  /** Deleting touches nothing a build relies on. */
  lemma RemoveKeeps(s: State, h: Hash)
    requires Inv(s) && Enabled(s, Remove(h))
    ensures Inv(Step(s, Remove(h)))
  {
    var t := Step(s, Remove(h));
    assert Count(s.pinned, h) == |Holders(s.builds, h)|;
    assert Holders(s.builds, h) == {};
    forall c | c in t.builds ensures BuildOk(t, t.builds[c]) {
      assert BuildOk(s, s.builds[c]);
      assert c !in Holders(s.builds, h);
    }
    forall x ensures Count(t.pinned, x) == |Holders(t.builds, x)| {
      assert Count(s.pinned, x) == |Holders(s.builds, x)|;
    }
  }

  /** Every step keeps the invariant. */
  lemma StepKeeps(s: State, a: Action)
    requires Inv(s) && Enabled(s, a)
    ensures Inv(Step(s, a))
  {
    hide Holders;
    match a
    case TakePin(b) => TakePinKeeps(s, b);
    case Unpin(b) => UnpinKeeps(s, b);
    case EndDelete(h) => EndDeleteKeeps(s, h);
    case Remove(h) => RemoveKeeps(s, h);
    case BeginDelete(h) =>
      var t := Step(s, a);
      forall x ensures Count(t.pinned, x) == |Holders(t.builds, x)| {
        assert Count(s.pinned, x) == |Holders(s.builds, x)|;
      }
      forall c | c in t.builds ensures BuildOk(t, t.builds[c]) {
        assert BuildOk(s, s.builds[c]);
      }
    case Open(b) =>
      LocalKeeps(s, Step(s, a), b, Build({}, Idle, {}, true));
    case _ =>
      var t, b := Step(s, a), a.build;
      assert BuildOk(s, s.builds[b]);
      LocalKeeps(s, t, b, t.builds[b]);
  }

  ghost predicate IsRun(s: State, actions: seq<Action>)
    decreases |actions|
  {
    actions == [] || (Enabled(s, actions[0]) && IsRun(Step(s, actions[0]), actions[1..]))
  }

  ghost function After(s: State, actions: seq<Action>): State
    requires IsRun(s, actions)
    decreases |actions|
  {
    if actions == [] then s else After(Step(s, actions[0]), actions[1..])
  }

  /** However builds, pins and deletions interleave. */
  lemma {:induction false} EveryRun(s: State, actions: seq<Action>)
    requires Inv(s) && IsRun(s, actions)
    ensures Inv(After(s, actions))
    decreases |actions|
  {
    hide Inv, Enabled, Step;
    if actions != [] {
      StepKeeps(s, actions[0]);
      EveryRun(Step(s, actions[0]), actions[1..]);
    }
  }

  lemma StartOk()
    ensures Inv(Start)
  {
    forall h ensures Count(Start.pinned, h) == |Holders(Start.builds, h)| {
      assert Holders(Start.builds, h) == {};
    }
  }

  /** From the start, in every run: pinned and deleting never meet, and what a
      build found or installed after pinning is stored until it closes. */
  lemma PinsProtect(actions: seq<Action>)
    requires IsRun(Start, actions)
    ensures var s := After(Start, actions);
      && (forall h :: !(h in s.pinned && h in s.deleting))
      && (forall h :: Count(s.pinned, h) == |Holders(s.builds, h)|)
      && (forall b :: b in s.builds ==> s.builds[b].relies <= s.stored)
      && (forall b :: b in s.builds && s.builds[b].stage.Waiting? && s.builds[b].stage.parked ==>
         s.builds[b].stage.hash in s.deleting)
  {
    StartOk();
    EveryRun(Start, actions);
    var s := After(Start, actions);
    assert forall b :: b in s.builds ==> BuildOk(s, s.builds[b]);
  }

  /** What a build relies on stays so until it closes, whatever step comes. */
  lemma ReliesKept(s: State, a: Action, b: nat, h: Hash)
    requires Inv(s) && Enabled(s, a) && b in s.builds && h in s.builds[b].relies && a != Close(b)
    ensures b in Step(s, a).builds && h in Step(s, a).builds[b].relies && h in Step(s, a).stored
  {
    StepKeeps(s, a);
    assert BuildOk(s, s.builds[b]);
    assert BuildOk(Step(s, a), Step(s, a).builds[b]);
  }
}
