/** Cancelling a build's git processes (rust/src/cancel.rs, `Cancel::cancel` and
    `wait_child_watched`). */
module CancelProtocol {

  type Pid = int

  /** A child's waiter: not waited on yet; holding the lock to register, before
      and after it has read the flag; waiting, with its watchdog; the exit seen
      and the watchdog gone; taken off the list; its group killed; reaped. */
  datatype Stage = Spawned | Locked | Loaded(seen: bool) | Waiting | Seen | Left | Killed | Reaped

  /** `tracked`: the build has a token. `signalled`: its group was sent a signal. */
  datatype Child = Child(pid: Pid, stage: Stage, tracked: bool, exited: bool, signalled: bool)

  /** Who has the lock on the groups; the canceller and its grace thread go
      through the groups while they hold it. */
  datatype Lock = Free | ByChild(child: nat) | ByCancel(todo: set<Pid>) | ByGrace(todo: set<Pid>)

  /** How far the first `cancel` call is. */
  datatype Phase = NotYet | Swapped | Signalling | Complete

  /** `foreign` are process groups of others. */
  datatype State = State(children: map<nat, Child>, groups: set<Pid>, lock: Lock, phase: Phase, cancelled: bool,
                         foreign: set<Pid>)

  const Start := State(map[], {}, Free, NotYet, false, {})

  datatype Action =
    | Spawn(child: nat, pid: Pid, tracked: bool)
    | ForeignStart(pid: Pid)
    | ForeignEnd(pid: Pid)
    | Exit(child: nat)
    | LockToRegister(child: nat)
    | LoadFlag(child: nat)
    | Register(child: nat)
    | WaitUntracked(child: nat)
    | Watchdog(child: nat)
    | SeeExit(child: nat)
    | Unregister(child: nat)
    | KillGroup(child: nat)
    | Reap(child: nat)
    | SwapFlag
    | LockToSignal
    | SignalOne(pid: Pid)
    | UnlockSignal
    | LockToKill
    | KillOne(pid: Pid)
    | UnlockKill

  /** The kernel gives out no id in use, and an unreaped leader's is in use. */
  predicate FreePid(s: State, pid: Pid) {
    pid !in s.foreign && forall c :: c in s.children && !s.children[c].stage.Reaped? ==> s.children[c].pid != pid
  }

  predicate At(s: State, c: nat, stage: Stage) {
    c in s.children && s.children[c].stage == stage
  }

  predicate Enabled(s: State, a: Action) {
    match a
    case Spawn(c, pid, tracked) => c !in s.children && FreePid(s, pid)
    case ForeignStart(pid) => FreePid(s, pid)
    case ForeignEnd(pid) => pid in s.foreign
    case Exit(c) => c in s.children
    case LockToRegister(c) => At(s, c, Spawned) && s.children[c].tracked && s.lock.Free?
    case LoadFlag(c) => At(s, c, Locked)
    case Register(c) => c in s.children && s.children[c].stage.Loaded?
    case WaitUntracked(c) => At(s, c, Spawned) && !s.children[c].tracked
    case Watchdog(c) => At(s, c, Waiting)
    case SeeExit(c) => At(s, c, Waiting) && s.children[c].exited
    case Unregister(c) => At(s, c, Seen) && (s.lock.Free? || !s.children[c].tracked)
    case KillGroup(c) => At(s, c, Left)
    case Reap(c) => At(s, c, Killed)
    case SwapFlag => s.phase.NotYet?
    case LockToSignal => s.phase.Swapped? && s.lock.Free?
    case SignalOne(pid) => s.lock.ByCancel? && pid in s.lock.todo
    case UnlockSignal => s.lock.ByCancel? && s.lock.todo == {}
    case LockToKill => s.phase.Complete? && s.lock.Free?
    case KillOne(pid) => s.lock.ByGrace? && pid in s.lock.todo
    case UnlockKill => s.lock.ByGrace? && s.lock.todo == {}
  }

  function SetChild(s: State, c: nat, child: Child): State {
    s.(children := s.children[c := child])
  }

  /** The child's group gets a signal, unless the child was reaped. */
  function Hit(child: Child): Child {
    if child.stage.Reaped? then child else child.(signalled := true)
  }

  /** Send a signal to the groups of these ids. */
  function Signal(s: State, pids: set<Pid>): State {
    s.(children := map c | c in s.children ::
         if s.children[c].pid in pids then Hit(s.children[c]) else s.children[c])
  }

  /** The groups a step signals. */
  function Targets(s: State, a: Action): set<Pid>
    requires Enabled(s, a)
  {
    match a
    case LoadFlag(c) => if s.cancelled then {s.children[c].pid} else {}
    case Watchdog(c) => {s.children[c].pid}
    case KillGroup(c) => {s.children[c].pid}
    case SignalOne(pid) => {pid}
    case KillOne(pid) => {pid}
    case _ => {}
  }

  function Move(s: State, a: Action): State
    requires Enabled(s, a)
  {
    match a
    case Spawn(c, pid, tracked) => SetChild(s, c, Child(pid, Spawned, tracked, false, false))
    case ForeignStart(pid) => s.(foreign := s.foreign + {pid})
    case ForeignEnd(pid) => s.(foreign := s.foreign - {pid})
    case Exit(c) => SetChild(s, c, s.children[c].(exited := true))
    case LockToRegister(c) => SetChild(s, c, s.children[c].(stage := Locked)).(lock := ByChild(c))
    case LoadFlag(c) => SetChild(s, c, s.children[c].(stage := Loaded(s.cancelled)))
    case Register(c) =>
      var groups := s.groups + {s.children[c].pid};
      SetChild(s, c, s.children[c].(stage := Waiting)).(lock := Free, groups := groups)
    case WaitUntracked(c) => SetChild(s, c, s.children[c].(stage := Waiting))
    case Watchdog(c) => s
    case SeeExit(c) => SetChild(s, c, s.children[c].(stage := Seen))
    case Unregister(c) =>
      var gone := if s.children[c].tracked then {s.children[c].pid} else {};
      SetChild(s, c, s.children[c].(stage := Left)).(groups := s.groups - gone)
    case KillGroup(c) => SetChild(s, c, s.children[c].(stage := Killed))
    case Reap(c) => SetChild(s, c, s.children[c].(stage := Reaped))
    case SwapFlag => s.(phase := Swapped, cancelled := true)
    case LockToSignal => s.(phase := Signalling, lock := ByCancel(s.groups))
    case SignalOne(pid) => s.(lock := ByCancel(s.lock.todo - {pid}))
    case UnlockSignal => s.(phase := Complete, lock := Free)
    case LockToKill => s.(lock := ByGrace(s.groups))
    case KillOne(pid) => s.(lock := ByGrace(s.lock.todo - {pid}))
    case UnlockKill => s.(lock := Free)
  }

  function Step(s: State, a: Action): State
    requires Enabled(s, a)
  {
    Signal(Move(s, a), Targets(s, a))
  }

  /** The child is on the list of groups. */
  predicate Listed(child: Child) {
    child.tracked && (child.stage.Waiting? || child.stage.Seen?)
  }

  /** What is right about a child depends on itself, the list, the lock and the phase. */
  ghost predicate Right(child: Child, c: nat, groups: set<Pid>, lock: Lock, phase: Phase, foreign: set<Pid>) {
    && (!child.stage.Reaped? ==> child.pid !in foreign)
    && (Listed(child) ==> child.pid in groups)
    && (child.stage.Locked? || child.stage.Loaded? <==> lock == ByChild(c))
    && (child.stage.Locked? || child.stage.Loaded? ==> child.tracked)
    && (child.stage == Loaded(false) ==> !phase.Complete? && !phase.Signalling?)
    && (child.stage == Loaded(true) ==> child.signalled)
    && (Listed(child) && phase.Complete? ==> child.signalled)
    && (Listed(child) && lock.ByCancel? && child.pid !in lock.todo ==> child.signalled)
  }

  ghost predicate ChildOk(s: State, c: nat)
    requires c in s.children
  {
    Right(s.children[c], c, s.groups, s.lock, s.phase, s.foreign)
  }

  /** Unreaped children have their own ids. */
  ghost predicate OwnPids(s: State) {
    forall c, d :: IsLive(s, c) && IsLive(s, d) && c != d ==> s.children[c].pid != s.children[d].pid
  }

  predicate IsLive(s: State, c: nat) {
    c in s.children && !s.children[c].stage.Reaped?
  }

  /** The id is that of a child of the build which is listed. */
  ghost predicate HasChild(s: State, pid: Pid) {
    exists c :: c in s.children && s.children[c].pid == pid && Listed(s.children[c])
  }

  ghost predicate Inv(s: State) {
    && (forall c :: c in s.children ==> ChildOk(s, c))
    && OwnPids(s)
    && (forall pid :: pid in s.groups ==> HasChild(s, pid))
    && Globals(s)
  }

  /** The flag, the lock and the phase agree. */
  ghost predicate Globals(s: State) {
    && (s.cancelled <==> !s.phase.NotYet?)
    && (s.phase.Signalling? <==> s.lock.ByCancel?)
    && (s.lock.ByCancel? || s.lock.ByGrace? ==> s.lock.todo <= s.groups)
    && (s.lock.ByGrace? ==> s.phase.Complete?)
    && (s.lock.ByChild? ==> s.lock.child in s.children)
  }

  /** The groups a step signals are led by the build's own unreaped children. */
  ghost predicate SafeTargets(s: State, a: Action)
    requires Enabled(s, a)
  {
    forall pid :: pid in Targets(s, a) ==>
      pid !in s.foreign && exists c :: IsLive(s, c) && s.children[c].pid == pid
  }

  lemma SignalsAreSafe(s: State, a: Action)
    requires Inv(s) && Enabled(s, a)
    ensures SafeTargets(s, a)
  {
    forall pid | pid in Targets(s, a)
      ensures pid !in s.foreign && exists c :: IsLive(s, c) && s.children[c].pid == pid
    {
      if a.SignalOne? || a.KillOne? {
        assert HasChild(s, pid);
        var c :| c in s.children && s.children[c].pid == pid && Listed(s.children[c]);
        assert ChildOk(s, c);
      } else {
        assert ChildOk(s, a.child);
      }
    }
  }

  /** The list after a step is that of the listed children. */
  lemma GroupsKept(s: State, a: Action)
    requires Inv(s) && Enabled(s, a)
    ensures forall pid :: pid in Step(s, a).groups ==> HasChild(Step(s, a), pid)
  {
    hide Step, ChildOk, Enabled, OwnPids, Globals, Listed;
    var t := Step(s, a);
    forall pid | pid in t.groups ensures HasChild(t, pid) {
      if pid in s.groups {
        assert HasChild(s, pid);
        var c :| c in s.children && s.children[c].pid == pid && Listed(s.children[c]);
        StaysListed(s, a, c);
        assert t.children[c].pid == pid;
      } else {
        ComesListed(s, a, pid);
        assert t.children[a.child].pid == pid;
      }
    }
  }

  /** A listed child is listed after a step unless its id leaves the list. */
  lemma StaysListed(s: State, a: Action, c: nat)
    requires Enabled(s, a) && c in s.children && Listed(s.children[c])
    requires s.children[c].pid in Step(s, a).groups
    ensures var t := Step(s, a);
      c in t.children && t.children[c].pid == s.children[c].pid && Listed(t.children[c])
  {
    hide Signal;
    SignalIs(Move(s, a), Targets(s, a), c);
  }

  /** An id comes on the list with the child that registers. */
  lemma ComesListed(s: State, a: Action, pid: Pid)
    requires Inv(s) && Enabled(s, a) && pid in Step(s, a).groups && pid !in s.groups
    ensures var t := Step(s, a);
      a.Register? && a.child in t.children && t.children[a.child].pid == pid && Listed(t.children[a.child])
  {
    hide Signal, HasChild, OwnPids, Globals;
    SignalGroups(Move(s, a), Targets(s, a));
    assert a.Register?;
    assert ChildOk(s, a.child);
    SignalIs(Move(s, a), Targets(s, a), a.child);
  }

  lemma SignalGroups(s: State, pids: set<Pid>)
    ensures Signal(s, pids) == s.(children := Signal(s, pids).children)
  {}

  /** A step keeps a child's id, and a reaped child stays reaped. */
  lemma SamePid(s: State, a: Action, c: nat)
    requires Enabled(s, a) && c in Step(s, a).children
    ensures if c in s.children
      then Step(s, a).children[c].pid == s.children[c].pid
        && (s.children[c].stage.Reaped? ==> Step(s, a).children[c].stage.Reaped?)
      else a.Spawn? && a.child == c && FreePid(s, Step(s, a).children[c].pid)
  {
    hide FreePid, Signal;
    SignalIs(Move(s, a), Targets(s, a), c);
  }

  lemma PidsKept(s: State, a: Action)
    requires Inv(s) && Enabled(s, a)
    ensures OwnPids(Step(s, a))
  {
    hide ChildOk, HasChild, Step, Enabled;
    var t := Step(s, a);
    forall c, d | IsLive(t, c) && IsLive(t, d) && c != d
      ensures t.children[c].pid != t.children[d].pid
    {
      SamePid(s, a, c);
      SamePid(s, a, d);
    }
  }

  /** The step is one of this child's own. */
  predicate Own(a: Action, c: nat) {
    match a
    case Spawn(d, _, _) => d == c
    case Exit(d) => d == c
    case LockToRegister(d) => d == c
    case LoadFlag(d) => d == c
    case Register(d) => d == c
    case WaitUntracked(d) => d == c
    case Watchdog(d) => d == c
    case SeeExit(d) => d == c
    case Unregister(d) => d == c
    case KillGroup(d) => d == c
    case Reap(d) => d == c
    case _ => false
  }

  lemma OwnStep(s: State, a: Action, c: nat)
    requires Inv(s) && Enabled(s, a) && Own(a, c)
    ensures c in Step(s, a).children && ChildOk(Step(s, a), c)
  {
    hide Inv, OwnPids, Signal;
    if c in s.children {
      InvAt(s, c);
    } else {
      InvNow(s);
    }
    SignalIs(Move(s, a), Targets(s, a), c);
  }

  lemma SignalIs(s: State, pids: set<Pid>, c: nat)
    ensures var t := Signal(s, pids);
      && t == s.(children := t.children) && (c in t.children <==> c in s.children)
      && (c in s.children ==>
        t.children[c] == if s.children[c].pid in pids then Hit(s.children[c]) else s.children[c])
  {}

  lemma OthersStep(s: State, a: Action, c: nat)
    requires Inv(s) && Enabled(s, a) && !Own(a, c) && c in s.children
    ensures c in Step(s, a).children && ChildOk(Step(s, a), c)
  {
    hide Inv, OwnPids, ChildOk, Step, Enabled, Own;
    if ByCanceller(a) {
      CancellerStep(s, a, c);
    } else {
      OtherChildsStep(s, a, c);
    }
  }

  predicate ByCanceller(a: Action) {
    a.SwapFlag? || a.LockToSignal? || a.SignalOne? || a.UnlockSignal? || a.LockToKill? || a.KillOne? || a.UnlockKill?
  }

  lemma CancellerStep(s: State, a: Action, c: nat)
    requires Inv(s) && Enabled(s, a) && ByCanceller(a) && c in s.children
    ensures c in Step(s, a).children && ChildOk(Step(s, a), c)
  {
    hide Inv, OwnPids, Signal;
    InvAt(s, c);
    SignalIs(Move(s, a), Targets(s, a), c);
  }

  lemma OtherChildsStep(s: State, a: Action, c: nat)
    requires Inv(s) && Enabled(s, a) && !ByCanceller(a) && !Own(a, c) && c in s.children
    ensures c in Step(s, a).children && ChildOk(Step(s, a), c)
  {
    hide Inv, OwnPids, ChildOk, Step, Enabled, Own;
    if a.LoadFlag? || a.Register? || a.LockToRegister? || a.Unregister? {
      OtherListStep(s, a, c);
    } else {
      OtherPlainStep(s, a, c);
    }
  }

  /** Another child comes on the list or leaves it. */
  lemma OtherListStep(s: State, a: Action, c: nat)
    requires Inv(s) && Enabled(s, a) && (a.LoadFlag? || a.Register? || a.LockToRegister? || a.Unregister?)
    requires !Own(a, c) && c in s.children
    ensures c in Step(s, a).children && ChildOk(Step(s, a), c)
  {
    hide Inv, HasChild, Signal;
    InvAt(s, c);
    InvAt(s, a.child);
    SignalIs(Move(s, a), Targets(s, a), c);
  }

  lemma OtherPlainStep(s: State, a: Action, c: nat)
    requires Inv(s) && Enabled(s, a) && !ByCanceller(a)
    requires !(a.LoadFlag? || a.Register? || a.LockToRegister? || a.Unregister?) && !Own(a, c) && c in s.children
    ensures c in Step(s, a).children && ChildOk(Step(s, a), c)
  {
    hide Inv, HasChild, OwnPids, Signal;
    InvAt(s, c);
    SignalIs(Move(s, a), Targets(s, a), c);
  }

  lemma InvAt(s: State, c: nat)
    requires Inv(s) && c in s.children
    ensures ChildOk(s, c) && Globals(s) && OwnPids(s)
  {}

  lemma InvNow(s: State)
    requires Inv(s)
    ensures Globals(s)
  {}

  lemma ChildKept(s: State, a: Action, c: nat)
    requires Inv(s) && Enabled(s, a) && c in Step(s, a).children
    ensures ChildOk(Step(s, a), c)
  {
    if Own(a, c) {
      OwnStep(s, a, c);
    } else {
      hide Inv, ChildOk;
      OthersStep(s, a, c);
    }
  }

  /** Every step keeps the invariant. */
  lemma StepKeeps(s: State, a: Action)
    requires Inv(s) && Enabled(s, a)
    ensures Inv(Step(s, a))
  {
    GlobalsKept(s, a);
    hide HasChild, OwnPids, ChildOk, Globals, Step, Enabled;
    GroupsKept(s, a);
    PidsKept(s, a);
    forall c | c in Step(s, a).children ensures ChildOk(Step(s, a), c) {
      ChildKept(s, a, c);
    }
  }

  lemma GlobalsKept(s: State, a: Action)
    requires Inv(s) && Enabled(s, a)
    ensures Globals(Step(s, a))
  {
    hide Inv, Signal;
    if a.Unregister? {
      InvAt(s, a.child);
    } else {
      InvNow(s);
    }
    if a.Register? || a.LoadFlag? || a.LockToRegister? || a.Reap? || a.KillGroup? || a.Watchdog? {
      InvAt(s, a.child);
    }
    SignalGroups(Move(s, a), Targets(s, a));
    if s.lock.ByChild? {
      SignalIs(Move(s, a), Targets(s, a), s.lock.child);
    }
    if a.LockToRegister? {
      SignalIs(Move(s, a), Targets(s, a), a.child);
    }
  }

  ghost predicate IsRun(s: State, actions: seq<Action>)
    decreases |actions|
  {
    actions == [] || (Enabled(s, actions[0]) && IsRun(Step(s, actions[0]), actions[1..]))
  }

  ghost function After(s: State, actions: seq<Action>): State
    requires IsRun(s, actions)
    decreases |actions|
  {
    if actions == [] then s else After(Step(s, actions[0]), actions[1..])
  }

  lemma {:induction false} EveryRun(s: State, actions: seq<Action>)
    requires Inv(s) && IsRun(s, actions)
    ensures Inv(After(s, actions))
    decreases |actions|
  {
    hide Inv, Enabled, Step;
    if actions != [] {
      StepKeeps(s, actions[0]);
      EveryRun(Step(s, actions[0]), actions[1..]);
    }
  }

  /** After any run, whatever step is next signals only unreaped children of the
      build; and once the first `cancel` is complete every registered child has
      been signalled. */
  lemma CancelSafe(actions: seq<Action>, next: Action)
    requires IsRun(Start, actions) && Enabled(After(Start, actions), next)
    ensures SafeTargets(After(Start, actions), next)
    ensures var s := After(Start, actions);
      s.phase.Complete? ==> forall c :: c in s.children && Listed(s.children[c]) ==> s.children[c].signalled
  {
    EveryRun(Start, actions);
    var s := After(Start, actions);
    SignalsAreSafe(s, next);
    assert forall c :: c in s.children ==> ChildOk(s, c);
  }
}
