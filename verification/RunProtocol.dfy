/** The execution protocol as a state machine. A step is one write transaction, one read, or one change of
    a run's memory. Any number of runs, of one execution or of several, interleave freely, and a crash may
    fall between any two steps. */
module RunProtocol {
  import opened Wrappers
  import opened Durable
  import opened Compaction

  /** Where a run of the loop stands between two of its steps. */
  datatype Pc =
    | Fetched(generation: nat)             // the execution row was read, its checkpoint not yet
    | Ready                                // the state is in memory, the start event is not yet committed
    | LoopTop
    | AfterClaim(claimed: Option<MsgId>)
    | AfterCheckpoint(saved: Option<MsgId>)
    | Thinking
    | Exiting                              // left the loop, the final checkpoint is not yet saved
    | Replying
    | Closing

  type RunId = nat

  /** The memory of one run of an execution. */
  datatype Run = Run(x: ExecId, agent: AgentId, st: ExecutionState, seqId: nat, pc: Pc)

  datatype Sys = Sys(db: Db, runs: map<RunId, Run>, up: bool)

  datatype Action =
    | QueueMsg(m: MsgId, to: AgentId, now: nat)
    | InsertExec(x: ExecId, agent: AgentId, conv: ConvId, generation: nat)
    | Foreign(e: Event, now: nat)
    | WriteStatus(x: ExecId, status: Status)
    | Fetch(r: RunId, x: ExecId)
    | LoadState(r: RunId)
    | EmitStarted(r: RunId, now: nat)
    | ClaimSome(r: RunId, m: MsgId, now: nat)
    | ClaimNone(r: RunId)
    | SaveCp(r: RunId)
    | AckMsg(r: RunId, now: nat)
    | SkipAck(r: RunId)
    | Compact(r: RunId, d: nat)
    | AskApproval(r: RunId, now: nat)
    | CommitStep(r: RunId, isTool: bool, success: bool, finished: bool, now: nat)
    | FinalSave(r: RunId, failed: bool)
    | Reply(r: RunId, send: bool, now: nat)
    | Outcome(r: RunId, failed: bool, now: nat)
    | Abort(r: RunId)
    | Crash
    | RecoverAll

  /** Events that other components commit. They never speak for a run's own steps or for the inbox. */
  predicate IsForeign(e: Event) {
    match e
    case ExecutionStarted(_, _) => false
    case StepCompleted(_, _) => false
    case ToolExecuted(_, _) => false
    case InboxQueued(_, _) => false
    case InboxClaimed(_, _) => false
    case InboxAcked(_, _) => false
    case _ => true
  }

  ghost predicate Init(s: Sys) {
    s == Sys(Db([], map[], map[], map[]), map[], false)
  }

  predicate At(s: Sys, r: RunId, pc: Pc) { r in s.runs && s.runs[r].pc == pc }

  const STEP_LIMIT: nat := 25

  ghost predicate Enabled(s: Sys, a: Action) {
    (a.RecoverAll? <==> !s.up)
    && match a
       case QueueMsg(m, _, _) => m !in s.db.inbox
       case InsertExec(x, _, _, g) => x !in s.db.execs && g <= 1
       case Foreign(e, _) => IsForeign(e)
       case Fetch(r, x) => x in s.db.execs && r !in s.runs
       case LoadState(r) => r in s.runs && s.runs[r].pc.Fetched?
       case EmitStarted(r, _) => At(s, r, Ready)
       case ClaimSome(r, m, _) => At(s, r, LoopTop) && IsOldestQueued(s.db.inbox, s.runs[r].agent, m)
       case ClaimNone(r) => At(s, r, LoopTop) && !HasQueued(s.db.inbox, s.runs[r].agent)
       case SaveCp(r) => r in s.runs && s.runs[r].pc.AfterClaim?
       case AckMsg(r, _) => r in s.runs && s.runs[r].pc.AfterCheckpoint? && s.runs[r].pc.saved.Some?
       case SkipAck(r) => r in s.runs && s.runs[r].pc.AfterCheckpoint?
       case Compact(r, d) => At(s, r, Thinking) && 0 < d < |s.runs[r].st.steps|
       case AskApproval(r, _) => At(s, r, Thinking)
       case CommitStep(r, _, _, finished, _) =>
         At(s, r, Thinking) && (s.runs[r].st.total + 1 >= STEP_LIMIT ==> finished)
       case FinalSave(r, _) => At(s, r, Exiting)
       case Reply(r, _, _) => At(s, r, Replying)
       case Outcome(r, _, _) => At(s, r, Closing)
       case Abort(r) => r in s.runs
       case _ => true
  }

  function NewState(conv: ConvId): ExecutionState { ExecutionState(conv, [], 0) }

  /** The tool event of a step, if it has one, and the event that completes the step. */
  function CommitStepEvents(db: Db, x: ExecId, isTool: bool, success: bool, number: nat, now: nat): Db {
    var db' := if isTool then Commit(db, ToolExecuted(x, success), now) else db;
    Commit(db', StepCompleted(x, number), now)
  }

  ghost function Step(s: Sys, a: Action): Sys
    requires Enabled(s, a)
  {
    match a
    case QueueMsg(m, agent, now) => s.(db := Commit(s.db, InboxQueued(m, agent), now))
    case InsertExec(x, agent, conv, g) => s.(db := s.db.(execs := s.db.execs[x := ExecRow(agent, conv, Pending, g, 0)]))
    case Foreign(e, now) => s.(db := Commit(s.db, e, now))
    case WriteStatus(x, status) => s.(db := s.db.(execs := SetStatus(s.db.execs, x, status)))
    case Fetch(r, x) =>
      var row := s.db.execs[x];
      s.(runs := s.runs[r := Run(x, row.agent, NewState(row.conv), 0, Fetched(row.generation))])
    case LoadState(r) =>
      var run := s.runs[r];
      (match Load(s.db, run.x, run.pc.generation)
       case StaleGeneration(_, _) => s.(runs := s.runs - {r})
       case NoCheckpoint => s.(runs := s.runs[r := run.(pc := Ready)])
       case State(st) => s.(runs := s.runs[r := run.(st := st, pc := Ready)]))
    case EmitStarted(r, now) =>
      var run := s.runs[r];
      var db := Commit(s.db, ExecutionStarted(run.x, run.agent), now);
      s.(db := db, runs := s.runs[r := run.(seqId := |db.log|, pc := LoopTop)])
    case ClaimSome(r, m, now) =>
      var run := s.runs[r];
      s.(db := Commit(s.db, InboxClaimed(m, run.agent), now),
         runs := s.runs[r := run.(st := Push(run.st, FromInbox(m)), pc := AfterClaim(Some(m)))])
    case ClaimNone(r) => s.(runs := s.runs[r := s.runs[r].(pc := AfterClaim(None))])
    case SaveCp(r) =>
      var run := s.runs[r];
      s.(db := Save(s.db, run.x, run.st, run.seqId), runs := s.runs[r := run.(pc := AfterCheckpoint(run.pc.claimed))])
    case AckMsg(r, now) =>
      var run := s.runs[r];
      s.(db := Commit(s.db, InboxAcked(run.pc.saved.value, run.agent), now), runs := s.runs[r := run.(pc := Thinking)])
    case SkipAck(r) => s.(runs := s.runs[r := s.runs[r].(pc := Thinking)])
    case Compact(r, d) => s.(runs := s.runs[r := s.runs[r].(st := Compacted(s.runs[r].st, d))])
    case AskApproval(r, now) => s.(db := Commit(s.db, PendingApproval(s.runs[r].x), now))
    case CommitStep(r, isTool, success, finished, now) =>
      var run := s.runs[r];
      var st := Push(run.st, if isTool then Tool(|s.db.log| + 1) else Thought);
      var db := CommitStepEvents(s.db, run.x, isTool, success, st.total, now);
      s.(db := db, runs := s.runs[r := run.(st := st, seqId := |db.log|, pc := if finished then Exiting else LoopTop)])
    case FinalSave(r, failed) =>
      var run := s.runs[r];
      s.(db := SaveFinal(s.db, run.x, run.st, run.seqId, failed), runs := s.runs[r := run.(pc := Replying)])
    case Reply(r, send, now) =>
      s.(db := if send then Commit(s.db, MessageCreated(s.runs[r].st.conv), now) else s.db,
         runs := s.runs[r := s.runs[r].(pc := Closing)])
    case Outcome(r, failed, now) =>
      var x := s.runs[r].x;
      s.(db := Commit(s.db, if failed then ExecutionFailed(x) else ExecutionCompleted(x), now), runs := s.runs - {r})
    case Abort(r) => s.(runs := s.runs - {r})
    case Crash => Sys(s.db, map[], false)
    case RecoverAll => Sys(Recover(s.db), map[], true)
  }

  ghost predicate Next(s: Sys, a: Action, s': Sys) { Enabled(s, a) && s' == Step(s, a) }

  /** A run of the whole system, from the empty database. */
  ghost predicate IsRun(states: seq<Sys>, acts: seq<Action>) {
    && |states| == |acts| + 1
    && Init(states[0])
    && forall i | 0 <= i < |acts| :: Next(states[i], acts[i], states[i + 1])
  }

  // ---------- What every step keeps ----------

  ghost predicate HasInboxStep(st: ExecutionState, m: MsgId) {
    exists i | 0 <= i < |st.steps| :: st.steps[i].kind == FromInbox(m)
  }

  ghost predicate CheckpointOk(db: Db, x: ExecId)
    requires x in db.cps
  {
    var cp := db.cps[x];
    && x in db.execs
    && cp.generation == cp.stepNumber == cp.snapshot.total == db.execs[x].generation
    && cp.lastSeq <= |db.log|
    && InOrder(cp.snapshot, cp.lastSeq)
  }

  /** What holds of a run whatever other runs of its execution do. */
  ghost predicate RunOk(db: Db, run: Run) {
    && run.x in db.execs
    && run.seqId <= |db.log|
    && (run.pc.Fetched? ==> run.st.steps == [] && run.st.total == 0)
    && InOrder(run.st, if IsStarted(run.pc) then run.seqId else |db.log|)
    && (run.pc.AfterClaim? && run.pc.claimed.Some? ==> HasInboxStep(run.st, run.pc.claimed.value))
    && (HasSaved(run.pc) ==> run.x in db.cps)
  }

  predicate IsStarted(pc: Pc) { !pc.Fetched? && !pc.Ready? }

  /** Points of the loop that come after a checkpoint of the same run. */
  predicate HasSaved(pc: Pc) { IsStarted(pc) && !pc.LoopTop? && !pc.AfterClaim? }

  /** Executions are inserted with generation 0 or 1, and only a checkpoint raises it. */
  ghost predicate FirstGenerations(db: Db) {
    forall x | x in db.execs && x !in db.cps :: db.execs[x].generation <= 1
  }

  ghost predicate Inv(s: Sys) {
    && (forall x | x in s.db.cps :: CheckpointOk(s.db, x))
    && (forall r | r in s.runs :: RunOk(s.db, s.runs[r]))
    && (!s.up ==> s.runs == map[])
    && FirstGenerations(s.db)
  }

  /** A transaction that removes nothing that runs rely on. */
  ghost predicate Grows(db: Db, db': Db) {
    db.log <= db'.log && db.execs.Keys <= db'.execs.Keys && db.cps.Keys <= db'.cps.Keys
  }

  /** A transaction that leaves checkpoints and generations alone, whatever else it does. */
  ghost predicate Harmless(db: Db, db': Db) {
    && db.log <= db'.log
    && db'.cps == db.cps
    && (forall x | x in db.execs :: x in db'.execs && db'.execs[x].generation == db.execs[x].generation)
    && (forall x | x in db'.execs && x !in db.execs :: db'.execs[x].generation <= 1)
  }

  lemma HarmlessGrows(db: Db, db': Db)
    requires Harmless(db, db')
    ensures Grows(db, db')
  {
  }

  lemma CommitIsHarmless(db: Db, e: Event, now: nat)
    ensures Harmless(db, Commit(db, e, now))
    ensures !e.InboxQueued? ==> Commit(db, e, now).log == db.log + [e]
  {
  }

  lemma HistoryGrows(st: ExecutionState, bound: nat, bound': nat)
    requires InOrder(st, bound) && bound <= bound'
    ensures InOrder(st, bound')
  {
    StaysInOrder(st, st.total, bound, bound');
  }

  lemma GrowthKeepsRun(db: Db, db': Db, run: Run)
    requires Grows(db, db') && RunOk(db, run)
    ensures RunOk(db', run)
  {
    hide InOrder;
    HistoryGrows(run.st, if IsStarted(run.pc) then run.seqId else |db.log|,
                 if IsStarted(run.pc) then run.seqId else |db'.log|);
  }

  ghost predicate TablesOk(db: Db) {
    (forall x | x in db.cps :: CheckpointOk(db, x)) && FirstGenerations(db)
  }

  lemma HarmlessKeepsTables(db: Db, db': Db)
    requires Harmless(db, db') && TablesOk(db)
    ensures TablesOk(db')
  {
    hide InOrder;
    forall x | x in db'.cps
      ensures CheckpointOk(db', x)
    {
      assert CheckpointOk(db, x);
    }
  }

  /** A save of an ordered history keeps the tables consistent, whichever run it comes from. */
  lemma SaveKeepsTables(db: Db, x: ExecId, st: ExecutionState, seqId: nat)
    requires TablesOk(db) && x in db.execs && seqId <= |db.log| && InOrder(st, seqId)
    ensures TablesOk(Save(db, x, st, seqId)) && Grows(db, Save(db, x, st, seqId))
  {
    hide InOrder;
    var db' := Save(db, x, st, seqId);
    forall y | y in db'.cps
      ensures CheckpointOk(db', y)
    {
      assert y != x ==> CheckpointOk(db, y);
    }
  }

  lemma RecoverKeepsTables(db: Db)
    requires TablesOk(db)
    ensures TablesOk(Recover(db))
  {
    hide InOrder, Replay;
    forall x | x in db.cps
      ensures CheckpointOk(Recover(db), x)
    {
      assert CheckpointOk(db, x);
      if x in Crashed(db.execs) {
        ReplayInOrder(db.cps[x].snapshot, x, db.log, db.cps[x].lastSeq);
      }
    }
  }

  lemma InitInv(s: Sys)
    requires Init(s)
    ensures Inv(s)
  {
  }

  /** A step that keeps the tables consistent and changes the memory of no run but r. */
  lemma OneRunInv(s: Sys, s': Sys, r: RunId)
    requires Inv(s) && s.up && s'.up && TablesOk(s'.db) && Grows(s.db, s'.db)
    requires forall q | q in s'.runs && q != r :: q in s.runs && s'.runs[q] == s.runs[q]
    requires r in s'.runs ==> RunOk(s'.db, s'.runs[r])
    ensures Inv(s')
  {
    hide RunOk, CheckpointOk, Grows, FirstGenerations;
    forall q | q in s'.runs && q != r
      ensures RunOk(s'.db, s'.runs[q])
    {
      GrowthKeepsRun(s.db, s'.db, s.runs[q]);
    }
  }

  /** Only the two checkpoint steps and recovery touch checkpoints and generations. */
  lemma OtherStepsHarmless(s: Sys, a: Action)
    requires Enabled(s, a) && !a.SaveCp? && !a.FinalSave? && !a.RecoverAll?
    ensures Harmless(s.db, Step(s, a).db)
  {
    hide Commit, CommitStepEvents;
    var db := s.db;
    match a {
      case QueueMsg(m, agent, now) => CommitIsHarmless(db, InboxQueued(m, agent), now);
      case Foreign(e, now) => CommitIsHarmless(db, e, now);
      case EmitStarted(r, now) => CommitIsHarmless(db, ExecutionStarted(s.runs[r].x, s.runs[r].agent), now);
      case ClaimSome(r, m, now) => CommitIsHarmless(db, InboxClaimed(m, s.runs[r].agent), now);
      case AckMsg(r, now) => CommitIsHarmless(db, InboxAcked(s.runs[r].pc.saved.value, s.runs[r].agent), now);
      case AskApproval(r, now) => CommitIsHarmless(db, PendingApproval(s.runs[r].x), now);
      case CommitStep(r, isTool, success, _, now) =>
        CommitStepEventsHarmless(db, s.runs[r].x, isTool, success, s.runs[r].st.total + 1, now);
      case Reply(r, _, now) => CommitIsHarmless(db, MessageCreated(s.runs[r].st.conv), now);
      case Outcome(r, failed, now) =>
        CommitIsHarmless(db, if failed then ExecutionFailed(s.runs[r].x) else ExecutionCompleted(s.runs[r].x), now);
      case _ =>
    }
  }

  lemma CommitStepEventsHarmless(db: Db, x: ExecId, isTool: bool, success: bool, number: nat, now: nat)
    ensures var db' := CommitStepEvents(db, x, isTool, success, number, now);
      Harmless(db, db') && |db'.log| == |db.log| + if isTool then 2 else 1
  {
    hide Commit;
    CommitIsHarmless(db, ToolExecuted(x, success), now);
    var mid := if isTool then Commit(db, ToolExecuted(x, success), now) else db;
    CommitIsHarmless(mid, StepCompleted(x, number), now);
  }

  /** What a step of a run does to that run. */
  lemma OwnRunOk(s: Sys, a: Action, r: RunId)
    requires Inv(s) && Enabled(s, a) && Grows(s.db, Step(s, a).db)
    requires !a.SaveCp? && !a.FinalSave? && !a.RecoverAll? && !a.EmitStarted? && !a.CommitStep? && !a.LoadState?
    requires r in Step(s, a).runs
    ensures RunOk(Step(s, a).db, Step(s, a).runs[r])
  {
    hide InOrder, Commit, CheckpointOk;
    var s' := Step(s, a);
    if a.Fetch? && a.r == r {
      EmptyInOrder(s'.runs[r].st, |s'.db.log|);
    } else {
      var run := s.runs[r];
      GrowthKeepsRun(s.db, s'.db, run);
      if a.ClaimSome? && a.r == r {
        PushInOrder(run.st, FromInbox(a.m), run.seqId, run.seqId);
        assert s'.runs[r].st.steps[|run.st.steps|].kind == FromInbox(a.m);
      } else if a.Compact? && a.r == r {
        CompactionInOrder(run.st, a.d, run.seqId);
      }
    }
  }

  lemma EmptyInOrder(st: ExecutionState, bound: nat)
    requires st.steps == []
    ensures InOrder(st, bound)
  {
  }

  lemma StaysUp(s: Sys, a: Action)
    requires Enabled(s, a) && !a.RecoverAll? && !a.Crash?
    ensures s.up && Step(s, a).up
  {
  }

  lemma PlainStepInv(s: Sys, a: Action)
    requires Inv(s) && Enabled(s, a)
    requires !a.SaveCp? && !a.FinalSave? && !a.RecoverAll? && !a.Crash?
    requires !a.EmitStarted? && !a.CommitStep? && !a.LoadState?
    ensures Inv(Step(s, a))
  {
    hide CheckpointOk, RunOk, Commit, Harmless, Grows, FirstGenerations, Step, Enabled;
    var s' := Step(s, a);
    StaysUp(s, a);
    OtherStepsHarmless(s, a);
    HarmlessGrows(s.db, s'.db);
    HarmlessKeepsTables(s.db, s'.db);
    forall r | r in s'.runs
      ensures RunOk(s'.db, s'.runs[r])
    {
      OwnRunOk(s, a, r);
    }
  }

  lemma LoadInv(s: Sys, r: RunId)
    requires Inv(s) && Enabled(s, LoadState(r))
    ensures Inv(Step(s, LoadState(r)))
  {
    hide InOrder;
    var run, s' := s.runs[r], Step(s, LoadState(r));
    if run.x in s.db.cps {
      assert CheckpointOk(s.db, run.x);
      HistoryGrows(s.db.cps[run.x].snapshot, s.db.cps[run.x].lastSeq, |s.db.log|);
    }
    assert r in s'.runs ==> RunOk(s'.db, s'.runs[r]);
    OneRunInv(s, s', r);
  }

  lemma EmitStartedInv(s: Sys, r: RunId, now: nat)
    requires Inv(s) && Enabled(s, EmitStarted(r, now))
    ensures Inv(Step(s, EmitStarted(r, now)))
  {
    hide Project, InOrder;
    var run, s' := s.runs[r], Step(s, EmitStarted(r, now));
    CommitIsHarmless(s.db, ExecutionStarted(run.x, run.agent), now);
    HarmlessGrows(s.db, s'.db);
    HarmlessKeepsTables(s.db, s'.db);
    HistoryGrows(run.st, |s.db.log|, |s'.db.log|);
    assert RunOk(s'.db, s'.runs[r]);
    OneRunInv(s, s', r);
  }

  lemma CommitStepInv(s: Sys, r: RunId, isTool: bool, success: bool, finished: bool, now: nat)
    requires Inv(s) && Enabled(s, CommitStep(r, isTool, success, finished, now))
    ensures Inv(Step(s, CommitStep(r, isTool, success, finished, now)))
  {
    hide CommitStepEvents, InOrder, CheckpointOk, FirstGenerations, Harmless;
    var run, s' := s.runs[r], Step(s, CommitStep(r, isTool, success, finished, now));
    var kind := if isTool then Tool(|s.db.log| + 1) else Thought;
    CommitStepEventsHarmless(s.db, run.x, isTool, success, Push(run.st, kind).total, now);
    HarmlessGrows(s.db, s'.db);
    HarmlessKeepsTables(s.db, s'.db);
    PushInOrder(run.st, kind, run.seqId, |s'.db.log|);
    assert RunOk(s'.db, s'.runs[r]);
    OneRunInv(s, s', r);
  }

  lemma SaveStepInv(s: Sys, r: RunId)
    requires Inv(s) && Enabled(s, SaveCp(r))
    ensures Inv(Step(s, SaveCp(r)))
  {
    hide InOrder, CheckpointOk;
    var run, s' := s.runs[r], Step(s, SaveCp(r));
    SaveKeepsTables(s.db, run.x, run.st, run.seqId);
    assert RunOk(s'.db, s'.runs[r]);
    OneRunInv(s, s', r);
  }

  lemma FinalAfterSave(db: Db, x: ExecId, st: ExecutionState, seqId: nat, failed: bool)
    requires x in db.execs
    ensures Harmless(Save(db, x, st, seqId), SaveFinal(db, x, st, seqId, failed))
  {
  }

  lemma FinalSaveInv(s: Sys, r: RunId, failed: bool)
    requires Inv(s) && Enabled(s, FinalSave(r, failed))
    ensures Inv(Step(s, FinalSave(r, failed)))
  {
    hide InOrder, CheckpointOk;
    var run, s' := s.runs[r], Step(s, FinalSave(r, failed));
    var saved := Save(s.db, run.x, run.st, run.seqId);
    SaveKeepsTables(s.db, run.x, run.st, run.seqId);
    FinalAfterSave(s.db, run.x, run.st, run.seqId, failed);
    HarmlessKeepsTables(saved, s'.db);
    HarmlessGrows(saved, s'.db);
    GrowthKeepsRun(saved, s'.db, run);
    assert Grows(s.db, s'.db);
    assert RunOk(s'.db, s'.runs[r]);
    OneRunInv(s, s', r);
  }

  lemma RecoverInv(s: Sys)
    requires Inv(s) && Enabled(s, RecoverAll)
    ensures Inv(Step(s, RecoverAll))
  {
    hide Recover, CheckpointOk;
    RecoverKeepsTables(s.db);
  }

  lemma CrashInv(s: Sys)
    requires Inv(s) && Enabled(s, Crash)
    ensures Inv(Step(s, Crash))
  {
  }

  /** Every step keeps the invariant, with any number of runs of each execution. */
  lemma InvStep(s: Sys, a: Action)
    requires Inv(s) && Enabled(s, a)
    ensures Inv(Step(s, a))
  {
    hide *;
    match a {
      case SaveCp(r) => SaveStepInv(s, r);
      case FinalSave(r, failed) => FinalSaveInv(s, r, failed);
      case RecoverAll => RecoverInv(s);
      case Crash => CrashInv(s);
      case CommitStep(r, isTool, success, finished, now) => CommitStepInv(s, r, isTool, success, finished, now);
      case EmitStarted(r, now) => EmitStartedInv(s, r, now);
      case LoadState(r) => LoadInv(s, r);
      case _ => PlainStepInv(s, a);
    }
  }
}
