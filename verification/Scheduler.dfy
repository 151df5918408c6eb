/** Two-level admission: a slot of the task's project first, then one of the global permits. Tasks
    interleave freely. A task drops its permit, but not its slot, while it waits for a human. Debates between
    agents take a permit from the same pool without a slot. */
module Scheduler {
  type ProjectId = nat

  datatype Phase =
    | AtGate                               // waiting for a slot of its project
    | WaitPermit                           // has the slot, waiting for a permit
    | Booting                              // has both, reading its rows
    | BootFailed                           // gave the slot back on an early return, still holds the permit
    | Looping(total: nat, asked: bool)     // inside the loop, with the step total so far
    | AwaitHuman(total: nat)               // dropped the permit until the approval is resolved
    | Reacquiring(total: nat)              // approval resolved, waiting for a permit again
    | Returned                             // the loop function returned and dropped its permit
    | DebateWaiting                        // a debate, waiting for a permit
    | Debating                             // holds it until the debate is over
    | Gone

  /** A task with what it holds: the slot it has counted in, and a permit object that is not yet dropped. */
  datatype Task = Task(project: ProjectId, phase: Phase, slot: bool, permit: bool)

  datatype State = State(tasks: seq<Task>, active: map<ProjectId, nat>, free: nat)

  datatype Config = Config(permits: nat, caps: map<ProjectId, nat>)

  const DEFAULT_CAP: nat := 4
  const STEP_LIMIT: nat := 25

  function Cap(c: Config, p: ProjectId): nat { if p in c.caps then c.caps[p] else DEFAULT_CAP }

  function Active(s: State, p: ProjectId): nat { if p in s.active then s.active[p] else 0 }

  // ---------- The shared counters ----------

  /** The gate: one more active task, if the project is below its cap. */
  function TakeSlot(active: map<ProjectId, nat>, p: ProjectId): map<ProjectId, nat> {
    active[p := (if p in active then active[p] else 0) + 1]
  }

  /** The release, with its saturating subtraction. */
  function ReleaseSlot(active: map<ProjectId, nat>, p: ProjectId): map<ProjectId, nat> {
    if p in active then active[p := if active[p] > 0 then active[p] - 1 else 0] else active
  }

  // ---------- Steps ----------

  datatype Action =
    | Spawn(project: ProjectId)
    | PassGate(i: nat)
    | ShutDownAtGate(i: nat)
    | TakePermit(i: nat)
    | FailBoot(i: nat)
    | EndFailedBoot(i: nat)
    | StartLoop(i: nat, total: nat)        // the step total of the loaded checkpoint
    | AskHuman(i: nat)
    | Resolve(i: nat)
    | CancelWait(i: nat)
    | Reacquire(i: nat)
    | EndIteration(i: nat, total: nat, finished: bool)
    | FailLoop(i: nat)
    | Release(i: nat)
    | StartDebate(project: ProjectId)
    | TakeDebatePermit(i: nat)
    | GiveUpDebate(i: nat)
    | EndDebate(i: nat)

  /** The steps that add a task. */
  predicate Adds(a: Action) { a.Spawn? || a.StartDebate? }

  predicate Enabled(c: Config, s: State, a: Action) {
    Adds(a) ||
    (a.i < |s.tasks| &&
     var t := s.tasks[a.i];
     match a
     case PassGate(_) => t.phase.AtGate? && Active(s, t.project) < Cap(c, t.project)
     case ShutDownAtGate(_) => t.phase.AtGate?
     case TakePermit(_) => t.phase.WaitPermit? && s.free > 0
     case FailBoot(_) => t.phase.Booting?
     case EndFailedBoot(_) => t.phase.BootFailed?
     case StartLoop(_, _) => t.phase.Booting?
     case AskHuman(_) => t.phase.Looping? && !t.phase.asked
     case Resolve(_) => t.phase.AwaitHuman?
     case CancelWait(_) => t.phase.AwaitHuman?
     case Reacquire(_) => t.phase.Reacquiring? && s.free > 0
     case EndIteration(_, total, finished) =>
       t.phase.Looping? && total > t.phase.total && (total >= STEP_LIMIT ==> finished)
     case FailLoop(_) => t.phase.Looping?
     case Release(_) => t.phase.Returned?
     case TakeDebatePermit(_) => t.phase.DebateWaiting? && s.free > 0
     case GiveUpDebate(_) => t.phase.DebateWaiting?
     case EndDebate(_) => t.phase.Debating?
     case _ => true)
  }

  function Put(s: State, i: nat, t: Task): State
    requires i < |s.tasks|
  {
    s.(tasks := s.tasks[i := t])
  }

  function Step(c: Config, s: State, a: Action): State
    requires Enabled(c, s, a)
  {
    if a.Spawn? then s.(tasks := s.tasks + [Task(a.project, AtGate, false, false)])
    else if a.StartDebate? then s.(tasks := s.tasks + [Task(a.project, DebateWaiting, false, false)])
    else
      var i, t := a.i, s.tasks[a.i];
      match a
      case PassGate(_) => Put(s, i, t.(phase := WaitPermit, slot := true)).(active := TakeSlot(s.active, t.project))
      case ShutDownAtGate(_) => Put(s, i, t.(phase := Gone))
      case TakePermit(_) => Put(s, i, t.(phase := Booting, permit := true)).(free := s.free - 1)
      case FailBoot(_) => Put(s, i, t.(phase := BootFailed, slot := false)).(active := ReleaseSlot(s.active, t.project))
      case EndFailedBoot(_) => Put(s, i, t.(phase := Gone, permit := false)).(free := s.free + 1)
      case StartLoop(_, total) => Put(s, i, t.(phase := Looping(total, false)))
      case AskHuman(_) => Put(s, i, t.(phase := AwaitHuman(t.phase.total), permit := false)).(free := s.free + 1)
      case Resolve(_) => Put(s, i, t.(phase := Reacquiring(t.phase.total)))
      case CancelWait(_) => Put(s, i, t.(phase := Returned))
      case Reacquire(_) => Put(s, i, t.(phase := Looping(t.phase.total, true), permit := true)).(free := s.free - 1)
      case EndIteration(_, total, finished) =>
        if finished then Put(s, i, t.(phase := Returned, permit := false)).(free := s.free + 1)
        else Put(s, i, t.(phase := Looping(total, false)))
      case FailLoop(_) => Put(s, i, t.(phase := Returned, permit := false)).(free := s.free + 1)
      case Release(_) => Put(s, i, t.(phase := Gone, slot := false)).(active := ReleaseSlot(s.active, t.project))
      case TakeDebatePermit(_) => Put(s, i, t.(phase := Debating, permit := true)).(free := s.free - 1)
      case GiveUpDebate(_) => Put(s, i, t.(phase := Gone))
      case EndDebate(_) => Put(s, i, t.(phase := Gone, permit := false)).(free := s.free + 1)
  }

  ghost predicate Init(c: Config, s: State) {
    s == State([], map[], c.permits)
  }

  ghost predicate IsRun(c: Config, states: seq<State>, acts: seq<Action>) {
    && |states| == |acts| + 1
    && forall i | 0 <= i < |acts| :: Enabled(c, states[i], acts[i]) && states[i + 1] == Step(c, states[i], acts[i])
  }

  // ---------- Accounting ----------

  function SlotsHeld(tasks: seq<Task>, p: ProjectId): nat {
    if tasks == [] then 0
    else
      var t := tasks[|tasks| - 1];
      SlotsHeld(tasks[..|tasks| - 1], p) + if t.project == p && t.slot then 1 else 0
  }

  function PermitsHeld(tasks: seq<Task>): nat {
    if tasks == [] then 0
    else PermitsHeld(tasks[..|tasks| - 1]) + if tasks[|tasks| - 1].permit then 1 else 0
  }

  predicate IsDebate(ph: Phase) { ph.DebateWaiting? || ph.Debating? }

  /** What a task holds is decided by where it stands. A task at the gate holds nothing. */
  predicate HoldsByPhase(t: Task) {
    && (t.slot <==> !t.phase.AtGate? && !t.phase.BootFailed? && !t.phase.Gone? && !IsDebate(t.phase))
    && (t.permit <==> t.phase.Booting? || t.phase.BootFailed? || t.phase.Looping? || t.phase.Debating?)
  }

  /** The counter of a project is the number of its tasks that hold a slot and stays within the cap, every
      permit is free or held, and tasks hold what their phase says. */
  ghost predicate Accounted(c: Config, s: State) {
    && (forall p :: Active(s, p) == SlotsHeld(s.tasks, p) && Active(s, p) <= Cap(c, p))
    && s.free + PermitsHeld(s.tasks) == c.permits
    && (forall i | 0 <= i < |s.tasks| :: HoldsByPhase(s.tasks[i]))
  }

  lemma {:induction false} PutCounts(tasks: seq<Task>, i: nat, t': Task, p: ProjectId)
    requires i < |tasks| && t'.project == tasks[i].project
    ensures var t, tasks' := tasks[i], tasks[i := t'];
      && SlotsHeld(tasks', p) == SlotsHeld(tasks, p)
           + (if t.project == p && t'.slot then 1 else 0) - (if t.project == p && t.slot then 1 else 0)
      && PermitsHeld(tasks') == PermitsHeld(tasks) + (if t'.permit then 1 else 0) - (if t.permit then 1 else 0)
  {
    var tasks', n := tasks[i := t'], |tasks| - 1;
    if i < n {
      PutCounts(tasks[..n], i, t', p);
      assert tasks'[..n] == tasks[..n][i := t'];
    } else {
      assert tasks'[..n] == tasks[..n];
    }
  }

  lemma {:induction false} HolderCounted(tasks: seq<Task>, i: nat)
    requires i < |tasks|
    ensures tasks[i].slot ==> SlotsHeld(tasks, tasks[i].project) > 0
    ensures tasks[i].permit ==> PermitsHeld(tasks) > 0
  {
    if i < |tasks| - 1 {
      HolderCounted(tasks[..|tasks| - 1], i);
    }
  }

  function Bit(b: bool): nat { if b then 1 else 0 }

  /** A step on one task that counts in and out what the task takes and gives back. */
  lemma PutAccounted(c: Config, s: State, s': State, i: nat)
    requires Accounted(c, s) && i < |s.tasks| == |s'.tasks| && s'.tasks == s.tasks[i := s'.tasks[i]]
    requires s'.tasks[i].project == s.tasks[i].project && HoldsByPhase(s'.tasks[i])
    requires s'.free == s.free + Bit(s.tasks[i].permit) - Bit(s'.tasks[i].permit)
    requires forall p | p != s.tasks[i].project :: Active(s', p) == Active(s, p)
    requires var p := s.tasks[i].project;
      Active(s', p) == Active(s, p) + Bit(s'.tasks[i].slot) - Bit(s.tasks[i].slot) <= Cap(c, p)
    ensures Accounted(c, s')
  {
    forall p {
      PutCounts(s.tasks, i, s'.tasks[i], p);
    }
  }

  /** What a step of one task counts in and out. */
  lemma TaskStep(c: Config, s: State, a: Action)
    requires Accounted(c, s) && Enabled(c, s, a) && !Adds(a)
    requires s.tasks[a.i].slot ==> Active(s, s.tasks[a.i].project) > 0
    ensures var i, s' := a.i, Step(c, s, a);
      var p, t := s.tasks[i].project, s'.tasks[i];
      && s'.tasks == s.tasks[i := t] && t.project == p && HoldsByPhase(t)
      && s'.free == s.free + Bit(s.tasks[i].permit) - Bit(t.permit)
      && (forall q | q != p :: Active(s', q) == Active(s, q))
      && Active(s', p) == Active(s, p) + Bit(t.slot) - Bit(s.tasks[i].slot) <= Cap(c, p)
      && (GivesSlotBack(a) ==> s.tasks[i].slot && !t.slot)
  {
    hide SlotsHeld, PermitsHeld;
    assert HoldsByPhase(s.tasks[a.i]);
  }

  predicate GivesSlotBack(a: Action) { a.Release? || a.FailBoot? }

  /** Every step keeps the accounts, and the saturating subtraction of a release never saturates. */
  lemma StepAccounted(c: Config, s: State, a: Action)
    requires Accounted(c, s) && Enabled(c, s, a)
    ensures Accounted(c, Step(c, s, a))
    ensures GivesSlotBack(a) ==>
      var p := s.tasks[a.i].project; Active(s, p) > 0 && Active(Step(c, s, a), p) == Active(s, p) - 1
  {
    if Adds(a) {
      NewAccounted(c, s, a);
    } else {
      HolderCounted(s.tasks, a.i);
      assert Active(s, s.tasks[a.i].project) == SlotsHeld(s.tasks, s.tasks[a.i].project);
      hide SlotsHeld, PermitsHeld, Accounted, Step, Active, Cap;
      TaskStep(c, s, a);
      PutAccounted(c, s, Step(c, s, a), a.i);
    }
  }

  lemma NewAccounted(c: Config, s: State, a: Action)
    requires Accounted(c, s) && Adds(a)
    ensures Accounted(c, Step(c, s, a))
  {
    assert Step(c, s, a).tasks[..|s.tasks|] == s.tasks;
  }

  /** In every interleaving counters and permits are accounted for, so no project exceeds its cap, a task that
      waits at the project gate holds no permit, and no release finds its counter at zero. */
  lemma {:induction false} RunAccounted(c: Config, states: seq<State>, acts: seq<Action>, n: nat)
    requires IsRun(c, states, acts) && Init(c, states[0]) && n < |states|
    ensures Accounted(c, states[n])
    ensures forall p :: Active(states[n], p) <= if p in c.caps then c.caps[p] else 4
    ensures n < |acts| && GivesSlotBack(acts[n]) ==>
      && acts[n].i < |states[n].tasks|
      && var p := states[n].tasks[acts[n].i].project;
         Active(states[n], p) > 0 && Active(states[n + 1], p) == Active(states[n], p) - 1
  {
    if n > 0 {
      RunAccounted(c, states, acts, n - 1);
      StepAccounted(c, states[n - 1], acts[n - 1]);
    }
    if n < |acts| {
      StepAccounted(c, states[n], acts[n]);
    }
  }

  // ---------- Progress ----------

  /** Steps that need no failure, cancellation or shutdown: a free slot or permit, an answered approval, or
      the task's own work. */
  predicate IsOrdinary(a: Action) {
    a.PassGate? || a.TakePermit? || a.EndFailedBoot? || a.StartLoop? || a.Resolve? || a.Reacquire?
    || a.EndIteration? || a.Release? || a.TakeDebatePermit? || a.EndDebate?
  }

  predicate IsWaiting(ph: Phase) { ph.AtGate? || WantsPermit(ph) || ph.Gone? }

  predicate WantsPermit(ph: Phase) { ph.WaitPermit? || ph.Reacquiring? || ph.DebateWaiting? }

  lemma {:induction false} NoneHeld(tasks: seq<Task>, p: ProjectId)
    requires forall i | 0 <= i < |tasks| :: !tasks[i].permit
    ensures PermitsHeld(tasks) == 0
    ensures (forall i | 0 <= i < |tasks| :: !tasks[i].slot) ==> SlotsHeld(tasks, p) == 0
  {
    if tasks != [] {
      NoneHeld(tasks[..|tasks| - 1], p);
    }
  }

  /** No deadlock: as long as a task is left, some task has an ordinary step to take. */
  lemma NoDeadlock(c: Config, states: seq<State>, acts: seq<Action>, n: nat, i: nat) returns (a: Action)
    requires IsRun(c, states, acts) && Init(c, states[0]) && n < |states|
    requires c.permits > 0 && forall p | p in c.caps :: c.caps[p] > 0
    requires i < |states[n].tasks| && !states[n].tasks[i].phase.Gone?
    ensures IsOrdinary(a) && Enabled(c, states[n], a)
  {
    var s := states[n];
    RunAccounted(c, states, acts, n);
    if k :| 0 <= k < |s.tasks| && !IsWaiting(s.tasks[k].phase) {
      var ph := s.tasks[k].phase;
      a := if ph.Booting? then StartLoop(k, 0)
           else if ph.BootFailed? then EndFailedBoot(k)
           else if ph.Looping? then EndIteration(k, ph.total + 1, true)
           else if ph.AwaitHuman? then Resolve(k)
           else if ph.Debating? then EndDebate(k)
           else Release(k);
    } else if k :| 0 <= k < |s.tasks| && WantsPermit(s.tasks[k].phase) {
      NoneHeld(s.tasks, 0);
      var ph := s.tasks[k].phase;
      a := if ph.WaitPermit? then TakePermit(k) else if ph.Reacquiring? then Reacquire(k) else TakeDebatePermit(k);
    } else {
      NoneHeld(s.tasks, s.tasks[i].project);
      assert Active(s, s.tasks[i].project) == 0;
      a := PassGate(i);
    }
  }

  /** An upper bound on the steps a task can still take. */
  function Weight(ph: Phase): nat {
    var left := (total: nat) => if total < STEP_LIMIT then 4 * (STEP_LIMIT - total) else 0;
    match ph
    case AtGate => 4 * STEP_LIMIT + 10
    case WaitPermit => 4 * STEP_LIMIT + 9
    case Booting => 4 * STEP_LIMIT + 8
    case Looping(total, asked) => left(total) + if asked then 4 else 7
    case AwaitHuman(total) => left(total) + 6
    case Reacquiring(total) => left(total) + 5
    case Returned => 1
    case BootFailed => 1
    case DebateWaiting => 2
    case Debating => 1
    case Gone => 0
  }

  function Measure(tasks: seq<Task>): nat {
    if tasks == [] then 0 else Measure(tasks[..|tasks| - 1]) + Weight(tasks[|tasks| - 1].phase)
  }

  lemma {:induction false} PutMeasure(tasks: seq<Task>, i: nat, t: Task)
    requires i < |tasks|
    ensures Measure(tasks[i := t]) == Measure(tasks) + Weight(t.phase) - Weight(tasks[i].phase)
  {
    var tasks', n := tasks[i := t], |tasks| - 1;
    if i < n {
      PutMeasure(tasks[..n], i, t);
      assert tasks'[..n] == tasks[..n][i := t];
    } else {
      assert tasks'[..n] == tasks[..n];
    }
  }

  lemma TaskWeightFalls(c: Config, s: State, a: Action)
    requires Enabled(c, s, a) && !Adds(a)
    ensures var tasks' := Step(c, s, a).tasks;
      && a.i < |s.tasks| == |tasks'| && tasks' == s.tasks[a.i := tasks'[a.i]]
      && Weight(tasks'[a.i].phase) < Weight(s.tasks[a.i].phase)
  {
  }

  /** Every step that adds no task, failures and cancellations included, lowers the measure. */
  lemma MeasureFalls(c: Config, s: State, a: Action)
    requires Enabled(c, s, a) && !Adds(a)
    ensures Measure(Step(c, s, a).tasks) < Measure(s.tasks)
  {
    TaskWeightFalls(c, s, a);
    hide Enabled, Step, Measure, Weight;
    PutMeasure(s.tasks, a.i, Step(c, s, a).tasks[a.i]);
  }

  /** Once no more tasks are added, no interleaving is longer than the measure, and one that cannot go on
      with an ordinary step has finished every task. */
  lemma {:induction false} EveryTaskEnds(c: Config, states: seq<State>, acts: seq<Action>, start: nat)
    requires IsRun(c, states, acts) && Init(c, states[0]) && start <= |acts|
    requires c.permits > 0 && forall p | p in c.caps :: c.caps[p] > 0
    requires forall k | start <= k < |acts| :: !Adds(acts[k])
    ensures |acts| - start <= Measure(states[start].tasks)
    ensures (forall a | IsOrdinary(a) :: !Enabled(c, states[|acts|], a)) ==>
              forall i | 0 <= i < |states[|acts|].tasks| :: states[|acts|].tasks[i].phase.Gone?
    decreases |acts| - start
  {
    if start < |acts| {
      EveryTaskEnds(c, states, acts, start + 1);
      MeasureFalls(c, states[start], acts[start]);
    }
    forall i | 0 <= i < |states[|acts|].tasks| && !states[|acts|].tasks[i].phase.Gone?
      ensures exists a :: IsOrdinary(a) && Enabled(c, states[|acts|], a)
    {
      var a := NoDeadlock(c, states, acts, |acts|, i);
    }
  }

  // ---------- The counters in place ----------

  class Counters {
    const caps: map<ProjectId, nat>
    var projectActive: map<ProjectId, nat>
    var availablePermits: nat

    /** The counters are those of a state of the machine. */
    ghost predicate Shows(c: Config, s: State)
      reads this
    {
      && caps == c.caps && availablePermits == s.free
      && forall p :: (if p in projectActive then projectActive[p] else 0) == Active(s, p)
    }

    constructor (c: Config)
      ensures Shows(c, State([], map[], c.permits))
    {
      caps := c.caps;
      projectActive := map[];
      availablePermits := c.permits;
    }

    /** One try at the gate, under the entry lock of the project. It passes exactly when the machine lets the task
        pass, and takes that step. */
    method TryPassGate(p: ProjectId, ghost c: Config, ghost s: State, ghost i: nat) returns (passed: bool)
      requires Shows(c, s) && i < |s.tasks| && s.tasks[i].phase.AtGate? && s.tasks[i].project == p
      modifies this`projectActive
      ensures passed <==> Enabled(c, s, PassGate(i))
      ensures if passed then Shows(c, Step(c, s, PassGate(i))) else Shows(c, s)
    {
      var cap := if p in caps then caps[p] else DEFAULT_CAP;
      if p !in projectActive {
        projectActive := projectActive[p := 0];
      }
      if projectActive[p] < cap {
        projectActive := projectActive[p := projectActive[p] + 1];
        return true;
      }
      return false;
    }

    /** On a failed boot and at the end of a task. In every reachable state it gives back exactly one slot: the
        subtraction does not saturate. */
    method ReleaseProjectSlot(p: ProjectId, ghost c: Config, ghost s: State, ghost a: Action)
      requires Shows(c, s) && Accounted(c, s)
      requires GivesSlotBack(a) && Enabled(c, s, a) && s.tasks[a.i].project == p
      modifies this`projectActive
      ensures Shows(c, Step(c, s, a))
      ensures p in old(projectActive) && old(projectActive)[p] > 0
      ensures projectActive == old(projectActive)[p := old(projectActive)[p] - 1]
    {
      StepAccounted(c, s, a);
      if p in projectActive {
        projectActive := projectActive[p := if projectActive[p] > 0 then projectActive[p] - 1 else 0];
      }
    }

    /** One try at a permit, for a task that has its slot, one that has waited for a human, or a debate. */
    method TryAcquire(ghost c: Config, ghost s: State, ghost a: Action) returns (acquired: bool)
      requires Shows(c, s) && TakesPermit(a) && a.i < |s.tasks| && MayTake(s.tasks[a.i].phase, a)
      modifies this`availablePermits
      ensures acquired <==> Enabled(c, s, a)
      ensures if acquired then Shows(c, Step(c, s, a)) else Shows(c, s)
    {
      acquired := availablePermits > 0;
      if acquired {
        availablePermits := availablePermits - 1;
      }
    }

    /** A permit object is dropped: before waiting for a human, when the loop ends, after a failed boot, and at the
        end of a debate. */
    method DropPermit(ghost c: Config, ghost s: State, ghost a: Action)
      requires Shows(c, s) && Enabled(c, s, a) && GivesPermitBack(a)
      modifies this`availablePermits
      ensures Shows(c, Step(c, s, a))
      ensures availablePermits == old(availablePermits) + 1
    {
      availablePermits := availablePermits + 1;
    }
  }

  predicate TakesPermit(a: Action) { a.TakePermit? || a.Reacquire? || a.TakeDebatePermit? }

  predicate MayTake(ph: Phase, a: Action) {
    (a.TakePermit? && ph.WaitPermit?) || (a.Reacquire? && ph.Reacquiring?) || (a.TakeDebatePermit? && ph.DebateWaiting?)
  }

  predicate GivesPermitBack(a: Action) {
    a.AskHuman? || a.FailLoop? || a.EndFailedBoot? || a.EndDebate? || (a.EndIteration? && a.finished)
  }
}
