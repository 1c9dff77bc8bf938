/** The staging reaper (rust/src/client/staging.rs, `Cleanup`, `AbortOnDrop`,
    `CloseOnDrop`, `spawn_reaper`). */
module ReaperProtocol {

  /** A worker's guard: not counted yet, held by its owner, its handle left to the
      reaper but still counted, or finished. */
  datatype Guard = Fresh | Held | Pushed | Finished

  /** `owner` is the worker that owns the guard; none for the clone itself. */
  datatype Worker = Worker(owner: Owner, guard: Guard, running: bool)

  datatype Owner = Clone | ByWorker(worker: nat)

  /** Where the reaper is: about to take the pending handles, awaiting a batch of
      them, about to look at `closed` and then at the guard count, parked, about
      to remove staging, done. `final` marks the last drain. */
  datatype Stage =
    | Take(final: bool)
    | AwaitBatch(batch: set<nat>, final: bool)
    | LookClosed
    | LookActive
    | Parked
    | RemoveStaging
    | Done

  /** `permit` is the stored wake-up and `notifying` counts those on their way. */
  datatype State = State(
    workers: map<nat, Worker>, pending: set<nat>, active: nat, closed: bool,
    permit: bool, notifying: nat, stage: Stage, staging: bool)

  const Start := State(map[], {}, 0, false, false, 0, Take(false), true)

  datatype Action =
    | Spawn(owner: Owner, worker: nat)
    | CountGuard(worker: nat)
    | DropPush(worker: nat)
    | DropFinish(worker: nat)
    | Join(worker: nat)
    | End(worker: nat)
    | Close
    | Notify
    | ReaperTake
    | ReaperJoined
    | ReaperLookClosed
    | ReaperLookActive
    | ReaperWake
    | ReaperRemove

  /** The owner can still start workers: the clone until it closes, a worker while
      it runs. Workers are numbered in the order they start. */
  predicate CanStart(s: State, owner: Owner, x: nat) {
    match owner
    case Clone => !s.closed
    case ByWorker(o) => o in s.workers && s.workers[o].running && o < x
  }

  /** The worker has dropped or joined every guard it owns. */
  predicate OwnsNone(s: State, x: nat) {
    forall y :: y in s.workers && s.workers[y].owner == ByWorker(x) ==> s.workers[y].guard.Finished?
  }

  predicate Enabled(s: State, a: Action) {
    match a
    case Spawn(owner, x) => x !in s.workers && CanStart(s, owner, x)
    case CountGuard(x) => x in s.workers && s.workers[x].guard.Fresh?
    case DropPush(x) => x in s.workers && s.workers[x].guard.Held?
    case DropFinish(x) => x in s.workers && s.workers[x].guard.Pushed?
    case Join(x) => x in s.workers && s.workers[x].guard.Held? && !s.workers[x].running
    case End(x) => x in s.workers && s.workers[x].running && OwnsNone(s, x)
    case Close => !s.closed && forall y :: y in s.workers && s.workers[y].owner == Clone ==> !s.workers[y].guard.Fresh?
    case Notify => s.notifying > 0
    case ReaperTake => s.stage.Take?
    case ReaperJoined => s.stage.AwaitBatch? && forall x :: x in s.stage.batch && x in s.workers ==>
      !s.workers[x].running
    case ReaperLookClosed => s.stage.LookClosed?
    case ReaperLookActive => s.stage.LookActive?
    case ReaperWake => s.stage.Parked? && s.permit
    case ReaperRemove => s.stage.RemoveStaging?
  }

  function SetGuard(s: State, x: nat, g: Guard): State
    requires x in s.workers
  {
    s.(workers := s.workers[x := s.workers[x].(guard := g)])
  }

  function Less(n: nat): nat { if n == 0 then 0 else n - 1 }

  function Step(s: State, a: Action): State
    requires Enabled(s, a)
  {
    match a
    case Spawn(owner, x) => s.(workers := s.workers[x := Worker(owner, Fresh, true)])
    case CountGuard(x) => SetGuard(s, x, Held).(active := s.active + 1)
    case DropPush(x) => SetGuard(s, x, Pushed).(pending := s.pending + {x}, notifying := s.notifying + 1)
    case DropFinish(x) => SetGuard(s, x, Finished).(active := Less(s.active), notifying := s.notifying + 1)
    case Join(x) => SetGuard(s, x, Finished).(active := Less(s.active), notifying := s.notifying + 1)
    case End(x) => s.(workers := s.workers[x := s.workers[x].(running := false)])
    case Close => s.(closed := true, notifying := s.notifying + 1)
    case Notify => s.(notifying := s.notifying - 1, permit := true)
    case ReaperTake =>
      if s.pending == {} then s.(stage := if s.stage.final then RemoveStaging else LookClosed)
      else s.(stage := AwaitBatch(s.pending, s.stage.final), pending := {})
    case ReaperJoined => s.(stage := Take(s.stage.final))
    case ReaperLookClosed => s.(stage := if s.closed then LookActive else Parked)
    case ReaperLookActive => s.(stage := if s.active == 0 then Take(true) else Parked)
    case ReaperWake => s.(stage := Take(false), permit := false)
    case ReaperRemove => s.(stage := Done, staging := false)
  }

  /** The shared record behind the steps. */
  class Cleanup {
    var pending: set<nat>
    var active: nat
    var closed: bool
    var permit: bool

    constructor ()
      ensures Matches(this, Start)
    {
      pending, active, closed, permit := {}, 0, false, false;
    }

    /** Store a wake-up. */
    method Notify()
      modifies this
      ensures permit && pending == old(pending) && active == old(active) && closed == old(closed)
    {
      permit := true;
    }

    method GuardStarted()
      modifies this
      ensures active == old(active) + 1 && pending == old(pending) && closed == old(closed) && permit == old(permit)
    {
      active := active + 1;
    }

    /** One guard less; the wake-up follows. */
    method Uncount()
      modifies this
      ensures active == Less(old(active)) && pending == old(pending) && closed == old(closed) && permit == old(permit)
    {
      active := if active == 0 then 0 else active - 1;
    }

    method GuardFinished()
      modifies this
      ensures active == Less(old(active)) && permit && pending == old(pending) && closed == old(closed)
    {
      Uncount();
      Notify();
    }

    /** One handle more; the wake-up follows. */
    method Leave(worker: nat)
      modifies this
      ensures pending == old(pending) + {worker} && active == old(active) && closed == old(closed)
        && permit == old(permit)
    {
      pending := pending + {worker};
    }

    method Push(worker: nat)
      modifies this
      ensures pending == old(pending) + {worker} && permit && active == old(active) && closed == old(closed)
    {
      Leave(worker);
      Notify();
    }

    /** The clone is over; the wake-up follows. */
    method MarkClosed()
      modifies this
      ensures closed && pending == old(pending) && active == old(active) && permit == old(permit)
    {
      closed := true;
    }

    method Close()
      modifies this
      ensures closed && permit && pending == old(pending) && active == old(active)
    {
      MarkClosed();
      Notify();
    }

    /** Take every pending handle. */
    method TakePending() returns (batch: set<nat>)
      modifies this
      ensures batch == old(pending) && pending == {} && active == old(active) && closed == old(closed)
        && permit == old(permit)
    {
      batch := pending;
      pending := {};
    }

    /** Use up the stored wake-up. */
    method Wake()
      modifies this
      ensures !permit && pending == old(pending) && active == old(active) && closed == old(closed)
    {
      permit := false;
    }
  }

  /** The shared record is the state's. */
  ghost predicate Matches(c: Cleanup, s: State)
    reads c
  {
    c.pending == s.pending && c.active == s.active && c.closed == s.closed && c.permit == s.permit
  }

  /** Take a step on the shared record: it follows the protocol's state. */
  method Perform(c: Cleanup, s: State, a: Action) returns (t: State)
    requires Enabled(s, a) && Matches(c, s)
    modifies c
    ensures t == Step(s, a) && Matches(c, t)
  {
    t := Step(s, a);
    match a {
      case CountGuard(_) =>
        c.GuardStarted();
      case DropPush(x) =>
        c.Leave(x);
      case DropFinish(_) =>
        c.Uncount();
      case Join(_) =>
        c.Uncount();
      case Close =>
        c.MarkClosed();
      case Notify =>
        c.Notify();
      case ReaperTake =>
        var batch := c.TakePending();
      case ReaperWake =>
        c.Wake();
      case _ =>
    }
  }

  /** The calls that end a guard, leave a handle and close are each their own step
      and then the wake-up that follows it. */
  method PerformBoth(c: Cleanup, s: State, a: Action) returns (t: State)
    requires a.DropFinish? || a.Join? || a.DropPush? || a.Close?
    requires Enabled(s, a) && Matches(c, s)
    modifies c
    ensures Enabled(Step(s, a), Notify) && t == Step(Step(s, a), Notify) && Matches(c, t)
  {
    t := Step(Step(s, a), Notify);
    if a.DropPush? {
      c.Push(a.worker);
    } else if a.Close? {
      c.Close();
    } else {
      c.GuardFinished();
    }
  }

  /** A whole run on a shared record of its own. */
  method PerformAll(actions: seq<Action>) returns (c: Cleanup, s: State)
    requires IsRun(Start, actions)
    ensures s == After(Start, actions) && Matches(c, s)
  {
    hide Enabled, Step;
    c := new Cleanup();
    s := Start;
    assert actions[0..] == actions;
    for i := 0 to |actions|
      invariant fresh(c) && Matches(c, s)
      invariant IsRun(s, actions[i..]) && After(s, actions[i..]) == After(Start, actions)
    {
      assert actions[i..][1..] == actions[i + 1..];
      s := Perform(c, s, actions[i]);
    }
  }

  predicate Counts(w: Worker) { w.guard.Held? || w.guard.Pushed? }

  ghost function Guards(s: State): set<nat> {
    set x | x in s.workers && Counts(s.workers[x])
  }

  function Batch(s: State): set<nat> {
    if s.stage.AwaitBatch? then s.stage.batch else {}
  }

  /** The reaper has seen the clone closed with no guard active. */
  predicate Final(s: State) {
    (s.stage.Take? && s.stage.final) || (s.stage.AwaitBatch? && s.stage.final) || s.stage.RemoveStaging?
      || s.stage.Done?
  }

  ghost predicate WorkerOk(s: State, x: nat)
    requires x in s.workers
  {
    var w := s.workers[x];
    && (w.running ==> w.guard.Fresh? || w.guard.Held? || x in s.pending || x in Batch(s))
    && (w.owner.ByWorker? && !w.guard.Finished? ==>
       w.owner.worker in s.workers && w.owner.worker < x && s.workers[w.owner.worker].running)
    && (w.owner.Clone? && s.closed ==> !w.guard.Fresh?)
    && (w.owner.Clone? && Final(s) ==> w.guard.Finished?)
    && (s.stage.RemoveStaging? || s.stage.Done? ==> !w.running)
  }

  ghost predicate Inv(s: State) {
    && s.active == |Guards(s)|
    && (forall x :: x in s.workers ==> WorkerOk(s, x))
    && (s.stage.LookActive? || Final(s) ==> s.closed)
    && (!s.staging ==> s.stage.Done?)
    && (s.stage.Parked? && s.closed && s.active == 0 ==> s.permit || s.notifying > 0)
  }

  /** When the last drain finds nothing pending, no worker runs: each would be
      guarded by an earlier worker that runs. */
  lemma {:induction false} NoneRunning(s: State, x: nat)
    requires Inv(s) && s.stage == Take(true) && s.pending == {}
    ensures x in s.workers ==> !s.workers[x].running
    decreases x
  {
    if x in s.workers && s.workers[x].running {
      assert WorkerOk(s, x);
      if s.workers[x].owner.ByWorker? {
        NoneRunning(s, s.workers[x].owner.worker);
      }
    }
  }

  lemma GuardsSet(s: State, x: nat, w: Worker)
    ensures Guards(s.(workers := s.workers[x := w])) == if Counts(w) then Guards(s) + {x} else Guards(s) - {x}
    ensures x in Guards(s) <==> x in s.workers && Counts(s.workers[x])
  {}

  /** With no guard counted, the clone's guards are all finished once it closed. */
  lemma CloneDone(s: State)
    requires Inv(s) && s.closed && s.active == 0
    ensures forall x :: x in s.workers && s.workers[x].owner.Clone? ==> s.workers[x].guard.Finished?
  {
    forall x | x in s.workers && s.workers[x].owner.Clone? ensures s.workers[x].guard.Finished? {
      assert WorkerOk(s, x);
      assert Guards(s) == {};
      assert x !in Guards(s);
    }
  }

  /** The other workers do not notice a worker's step. */
  lemma OtherWorker(s: State, a: Action, y: nat)
    requires Inv(s) && Enabled(s, a) && (a.Spawn? || a.CountGuard? || a.DropPush? || a.DropFinish? || a.Join? || a.End?)
    requires y in s.workers && y != a.worker
    ensures WorkerOk(Step(s, a), y)
  {
    hide Guards;
    assert WorkerOk(s, y);
  }

  lemma ThisWorker(s: State, a: Action)
    requires Inv(s) && Enabled(s, a) && (a.Spawn? || a.CountGuard? || a.DropPush? || a.DropFinish? || a.Join? || a.End?)
    ensures a.worker in Step(s, a).workers && WorkerOk(Step(s, a), a.worker)
  {
    hide Guards;
    if a.worker in s.workers {
      assert WorkerOk(s, a.worker);
    }
  }

  /** The count follows the guards. */
  lemma CountsStep(s: State, a: Action)
    requires Inv(s) && Enabled(s, a) && (a.Spawn? || a.CountGuard? || a.DropPush? || a.DropFinish? || a.Join? || a.End?)
    ensures Step(s, a).active == |Guards(Step(s, a))|
  {
    hide *;
    OneWorker(s, a);
    ActiveIs(s, a);
    GuardsCounted(s);
    LessIs(s.active);
    var t, x: nat := Step(s, a), a.worker;
    GuardsSet(s, x, t.workers[x]);
    SameGuards(t, s.(workers := t.workers));
    assert x in Guards(s) ==> Guards(s) + {x} == Guards(s);
    assert x !in Guards(s) ==> Guards(s) - {x} == Guards(s);
  }

  lemma LessIs(n: nat)
    ensures n > 0 ==> Less(n) == n - 1
  {}

  lemma GuardsCounted(s: State)
    requires Inv(s)
    ensures s.active == |Guards(s)|
  {}

  lemma SameGuards(s: State, t: State)
    requires s.workers == t.workers
    ensures Guards(s) == Guards(t)
  {}

  lemma OneWorker(s: State, a: Action)
    requires Enabled(s, a) && (a.Spawn? || a.CountGuard? || a.DropPush? || a.DropFinish? || a.Join? || a.End?)
    ensures a.worker in Step(s, a).workers
    ensures Step(s, a).workers == s.workers[a.worker := Step(s, a).workers[a.worker]]
  {
    hide OwnsNone, CanStart;
  }

  /** The count moves with the worker's guard. */
  lemma ActiveIs(s: State, a: Action)
    requires Enabled(s, a) && (a.Spawn? || a.CountGuard? || a.DropPush? || a.DropFinish? || a.Join? || a.End?)
    requires a.worker in Step(s, a).workers
    ensures var x := a.worker;
      var before, after := x in s.workers && Counts(s.workers[x]), Counts(Step(s, a).workers[x]);
      Step(s, a).active == if before && !after then Less(s.active) else if after && !before then s.active + 1
        else s.active
  {
    hide OwnsNone, CanStart;
  }

  /** Steps of workers and guards. */
  lemma WorkerStep(s: State, a: Action)
    requires Inv(s) && Enabled(s, a) && (a.Spawn? || a.CountGuard? || a.DropPush? || a.DropFinish? || a.Join? || a.End?)
    ensures Inv(Step(s, a))
  {
    hide Guards, WorkerOk, OwnsNone, CanStart;
    var t, x := Step(s, a), a.worker;
    CountsStep(s, a);
    ThisWorker(s, a);
    forall y | y in t.workers ensures WorkerOk(t, y) {
      if y != x {
        OtherWorker(s, a, y);
      }
    }
  }

  /** The other steps: closing, notifying and the reaper's own. */
  lemma ReaperStep(s: State, a: Action)
    requires Inv(s) && Enabled(s, a)
      && !(a.Spawn? || a.CountGuard? || a.DropPush? || a.DropFinish? || a.Join? || a.End?)
    ensures Inv(Step(s, a))
  {
    var t := Step(s, a);
    assert Guards(t) == Guards(s);
    hide Guards;
    if a.ReaperLookActive? && s.active == 0 {
      CloneDone(s);
    }
    forall y | y in t.workers ensures WorkerOk(t, y) {
      assert WorkerOk(s, y);
      if a.ReaperTake? && s.pending == {} && s.stage.final {
        NoneRunning(s, y);
      }
    }
  }

  lemma StepKeeps(s: State, a: Action)
    requires Inv(s) && Enabled(s, a)
    ensures Inv(Step(s, a))
  {
    hide Inv, Step;
    if a.Spawn? || a.CountGuard? || a.DropPush? || a.DropFinish? || a.Join? || a.End? {
      WorkerStep(s, a);
    } else {
      ReaperStep(s, a);
    }
  }

  ghost predicate IsRun(s: State, actions: seq<Action>)
    decreases |actions|
  {
    actions == [] || (Enabled(s, actions[0]) && IsRun(Step(s, actions[0]), actions[1..]))
  }

  ghost function After(s: State, actions: seq<Action>): State
    requires IsRun(s, actions)
    decreases |actions|
  {
    if actions == [] then s else After(Step(s, actions[0]), actions[1..])
  }

  lemma {:induction false} EveryRun(s: State, actions: seq<Action>)
    requires Inv(s) && IsRun(s, actions)
    ensures Inv(After(s, actions))
    decreases |actions|
  {
    hide Inv, Enabled, Step;
    if actions != [] {
      StepKeeps(s, actions[0]);
      EveryRun(Step(s, actions[0]), actions[1..]);
    }
  }

  /** In every run: once staging is removed no worker runs and none can start, and
      a parked reaper of a closed clone without guards has a wake-up to come. */
  lemma ReaperSafe(actions: seq<Action>)
    requires IsRun(Start, actions)
    ensures var s := After(Start, actions);
      && (!s.staging ==> forall x :: x in s.workers ==> !s.workers[x].running)
      && (!s.staging ==> forall owner, x :: !CanStart(s, owner, x))
      && (s.stage.Parked? && s.closed && s.active == 0 ==> s.permit || s.notifying > 0)
  {
    assert Guards(Start) == {};
    EveryRun(Start, actions);
    var s := After(Start, actions);
    if !s.staging {
      forall x | x in s.workers ensures !s.workers[x].running {
        assert WorkerOk(s, x);
      }
    }
  }
}
