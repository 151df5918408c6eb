/** What holds over whole runs of the execution protocol, with crashes and recoveries anywhere and any number
    of runs of each execution. */
module RunTheorems {
  import opened Wrappers
  import opened Durable
  import opened RunProtocol

  lemma {:induction false} Reachable(states: seq<Sys>, acts: seq<Action>, i: nat)
    requires IsRun(states, acts) && i < |states|
    ensures Inv(states[i])
  {
    hide Inv, Enabled, Step;
    if i == 0 {
      InitInv(states[0]);
    } else {
      Reachable(states, acts, i - 1);
      assert Next(states[i - 1], acts[i - 1], states[i]);
      InvStep(states[i - 1], acts[i - 1]);
    }
  }

  // ---------- Messages ----------

  /** The only ways a delivery state changes. */
  ghost predicate DeliveryRule(s: Sys, a: Action, m: MsgId, before: Delivery, after: Delivery)
    requires Enabled(s, a)
  {
    before == after
    || (before == QUEUED && after == CLAIMED && a.ClaimSome? && a.m == m)
    || (before == CLAIMED && after == QUEUED && a.RecoverAll?)
    || (before != ACKED && after == ACKED && a.AckMsg? && s.runs[a.r].pc.saved == Some(m))
  }

  lemma CommitKeepsInbox(db: Db, e: Event, now: nat)
    requires !e.InboxQueued? && !e.InboxClaimed? && !e.InboxAcked?
    ensures Commit(db, e, now).inbox == db.inbox
  {
  }

  lemma StepEventsKeepInbox(db: Db, x: ExecId, isTool: bool, success: bool, number: nat, now: nat)
    ensures CommitStepEvents(db, x, isTool, success, number, now).inbox == db.inbox
  {
    hide Commit;
    CommitKeepsInbox(db, ToolExecuted(x, success), now);
    var mid := if isTool then Commit(db, ToolExecuted(x, success), now) else db;
    CommitKeepsInbox(mid, StepCompleted(x, number), now);
  }

  /** Queueing, claiming, acknowledging and recovery are all that touches the inbox. */
  lemma OtherStepsKeepInbox(s: Sys, a: Action)
    requires Enabled(s, a) && !a.QueueMsg? && !a.ClaimSome? && !a.AckMsg? && !a.RecoverAll?
    ensures Step(s, a).db.inbox == s.db.inbox
  {
    hide Commit, CommitStepEvents;
    var db := s.db;
    match a {
      case Foreign(e, now) => CommitKeepsInbox(db, e, now);
      case EmitStarted(r, now) => CommitKeepsInbox(db, ExecutionStarted(s.runs[r].x, s.runs[r].agent), now);
      case AskApproval(r, now) => CommitKeepsInbox(db, PendingApproval(s.runs[r].x), now);
      case CommitStep(r, isTool, success, _, now) =>
        StepEventsKeepInbox(db, s.runs[r].x, isTool, success, s.runs[r].st.total + 1, now);
      case Reply(r, _, now) => CommitKeepsInbox(db, MessageCreated(s.runs[r].st.conv), now);
      case Outcome(r, failed, now) =>
        CommitKeepsInbox(db, if failed then ExecutionFailed(s.runs[r].x) else ExecutionCompleted(s.runs[r].x), now);
      case _ =>
    }
  }

  lemma MessageStep(s: Sys, a: Action, m: MsgId)
    requires Enabled(s, a) && m in s.db.inbox
    ensures var inbox' := Step(s, a).db.inbox;
      && m in inbox' && inbox'[m] == s.db.inbox[m].(delivery := inbox'[m].delivery)
      && DeliveryRule(s, a, m, s.db.inbox[m].delivery, inbox'[m].delivery)
  {
    if a.QueueMsg? || a.ClaimSome? || a.AckMsg? || a.RecoverAll? {
      hide RecoverSome, Push;
    } else {
      OtherStepsKeepInbox(s, a);
      hide Enabled, Step;
    }
  }

  /** A queued message is never lost, and an acknowledged one stays acknowledged. */
  lemma {:induction false} NothingLost(states: seq<Sys>, acts: seq<Action>, i: nat, j: nat, m: MsgId)
    requires IsRun(states, acts) && i <= j < |states| && m in states[i].db.inbox
    ensures m in states[j].db.inbox
    ensures states[j].db.inbox[m].agent == states[i].db.inbox[m].agent
    ensures states[j].db.inbox[m].createdAt == states[i].db.inbox[m].createdAt
    ensures states[i].db.inbox[m].delivery == ACKED ==> states[j].db.inbox[m].delivery == ACKED
    decreases j
  {
    if i < j {
      NothingLost(states, acts, i, j - 1, m);
      assert Next(states[j - 1], acts[j - 1], states[j]);
      MessageStep(states[j - 1], acts[j - 1], m);
    }
  }

  ghost predicate InCheckpoint(db: Db, x: ExecId, m: MsgId) { x in db.cps && HasInboxStep(db.cps[x].snapshot, m) }

  ghost predicate HeldAt(states: seq<Sys>, i: nat, x: ExecId, m: MsgId) {
    i < |states| && InCheckpoint(states[i].db, x, m)
  }

  /** A run that is about to acknowledge m has saved a checkpoint that held the step of m. Other runs may have
      saved over it since. */
  lemma {:induction false} SavedEarlier(states: seq<Sys>, acts: seq<Action>, k: nat, r: RunId, m: MsgId)
    returns (i: nat)
    requires IsRun(states, acts) && k < |states|
    requires r in states[k].runs && states[k].runs[r].pc == AfterCheckpoint(Some(m))
    ensures 0 < i <= k && acts[i - 1] == SaveCp(r) && HeldAt(states, i, states[k].runs[r].x, m)
  {
    hide Enabled, Step, Inv, HeldAt;
    assert k > 0;
    var s, a := states[k - 1], acts[k - 1];
    assert Next(s, a, states[k]);
    ToCheckpoint(s, a, r, m);
    if a == SaveCp(r) {
      Reachable(states, acts, k - 1);
      i := k;
      SaveHolds(s, r, m);
      HeldNow(states, k, states[k].runs[r].x, m);
    } else {
      i := SavedEarlier(states, acts, k - 1, r, m);
    }
  }

  lemma HeldNow(states: seq<Sys>, i: nat, x: ExecId, m: MsgId)
    requires i < |states| && InCheckpoint(states[i].db, x, m)
    ensures HeldAt(states, i, x, m)
  {
  }

  lemma ToCheckpoint(s: Sys, a: Action, r: RunId, m: MsgId)
    requires Enabled(s, a) && r in Step(s, a).runs && Step(s, a).runs[r].pc == AfterCheckpoint(Some(m))
    ensures r in s.runs && s.runs[r].x == Step(s, a).runs[r].x
    ensures if a == SaveCp(r) then s.runs[r].pc == AfterClaim(Some(m)) else s.runs[r].pc == AfterCheckpoint(Some(m))
  {
    hide Commit, CommitStepEvents, Save, SaveFinal, Recover;
  }

  lemma SaveHolds(s: Sys, r: RunId, m: MsgId)
    requires Inv(s) && Enabled(s, SaveCp(r)) && s.runs[r].pc == AfterClaim(Some(m))
    ensures var s' := Step(s, SaveCp(r));
      r in s'.runs && InCheckpoint(s'.db, s'.runs[r].x, m)
  {
    assert RunOk(s.db, s.runs[r]);
  }

  /** Every acknowledged message was acknowledged in some step k by a run whose own checkpoint, committed in an
      earlier step, held the step that delivered it. */
  lemma {:induction false} AckedWasCheckpointed(states: seq<Sys>, acts: seq<Action>, j: nat, m: MsgId)
    returns (k: nat, i: nat)
    requires IsRun(states, acts) && j < |states|
    requires m in states[j].db.inbox && states[j].db.inbox[m].delivery == ACKED
    ensures 0 < i <= k < j
    ensures acts[k].AckMsg? && acts[i - 1] == SaveCp(acts[k].r)
    ensures acts[k].r in states[k].runs && states[k].runs[acts[k].r].pc == AfterCheckpoint(Some(m))
    ensures HeldAt(states, i, states[k].runs[acts[k].r].x, m)
    decreases j
  {
    hide Enabled, Step, Inv, HeldAt;
    assert j > 0;
    var s, a := states[j - 1], acts[j - 1];
    assert Next(s, a, states[j]);
    if m in s.db.inbox && s.db.inbox[m].delivery == ACKED {
      k, i := AckedWasCheckpointed(states, acts, j - 1, m);
    } else {
      AckStep(s, a, m);
      k := j - 1;
      i := SavedEarlier(states, acts, k, a.r, m);
    }
  }

  lemma AckStep(s: Sys, a: Action, m: MsgId)
    requires Enabled(s, a) && m in Step(s, a).db.inbox && Step(s, a).db.inbox[m].delivery == ACKED
    requires m in s.db.inbox ==> s.db.inbox[m].delivery != ACKED
    ensures a.AckMsg? && a.r in s.runs && s.runs[a.r].pc == AfterCheckpoint(Some(m))
  {
    if m in s.db.inbox {
      MessageStep(s, a, m);
      hide Step;
      assert a.AckMsg?;
    } else {
      NewMessageIsQueued(s, a, m);
    }
  }

  lemma NewMessageIsQueued(s: Sys, a: Action, m: MsgId)
    requires Enabled(s, a) && m !in s.db.inbox && m in Step(s, a).db.inbox
    ensures Step(s, a).db.inbox[m].delivery == QUEUED
  {
    if a.QueueMsg? || a.ClaimSome? || a.AckMsg? || a.RecoverAll? {
      hide RecoverSome, Push;
    } else {
      OtherStepsKeepInbox(s, a);
      hide Enabled, Step;
    }
  }

  /** After a recovery nothing is left claimed: what was not acknowledged is queued again. */
  lemma RecoveryRequeues(s: Sys, m: MsgId)
    requires Enabled(s, RecoverAll) && m in s.db.inbox
    ensures var d := Step(s, RecoverAll).db.inbox[m].delivery;
      d == if s.db.inbox[m].delivery == ACKED then ACKED else QUEUED
  {
  }

  lemma {:induction false} StaysTaken(states: seq<Sys>, acts: seq<Action>, i: nat, j: nat, m: MsgId)
    requires IsRun(states, acts) && i <= j < |states|
    requires m in states[i].db.inbox && states[i].db.inbox[m].delivery != QUEUED
    requires forall k | i <= k < j :: !acts[k].RecoverAll?
    ensures m in states[j].db.inbox && states[j].db.inbox[m].delivery != QUEUED
    decreases j
  {
    if i < j {
      StaysTaken(states, acts, i, j - 1, m);
      assert Next(states[j - 1], acts[j - 1], states[j]);
      MessageStep(states[j - 1], acts[j - 1], m);
    }
  }

  /** No message is claimed twice, by whatever runs, unless a recovery lies between the claims. */
  lemma ClaimedOnce(states: seq<Sys>, acts: seq<Action>, i: nat, j: nat, m: MsgId)
    requires IsRun(states, acts) && i < j < |acts|
    requires acts[i].ClaimSome? && acts[i].m == m && acts[j].ClaimSome? && acts[j].m == m
    ensures exists k | i < k < j :: acts[k].RecoverAll?
  {
    assert Next(states[i], acts[i], states[i + 1]);
    assert Next(states[j], acts[j], states[j + 1]);
    if forall k | i < k < j :: !acts[k].RecoverAll? {
      assert states[i + 1].db.inbox[m].delivery == CLAIMED;
      StaysTaken(states, acts, i + 1, j, m);
      assert false;
    }
  }

  // ---------- Runs of one execution beside each other ----------

  /** The step writes a checkpoint of x. */
  ghost predicate Saves(s: Sys, a: Action, x: ExecId) {
    (a.SaveCp? || a.FinalSave?) && a.r in s.runs && s.runs[a.r].x == x
  }

  /** Run r loaded its state in step l and is in progress from then to state i. */
  ghost predicate LoadedAt(states: seq<Sys>, acts: seq<Action>, r: RunId, l: nat, i: nat) {
    && l < i < |states| && l < |acts| && acts[l] == LoadState(r)
    && forall k | l < k <= i :: r in states[k].runs
  }

  /** Another run of the same execution saved between steps l and i. */
  ghost predicate OtherSaved(states: seq<Sys>, acts: seq<Action>, r: RunId, l: nat, i: nat) {
    i <= |acts| && i < |states| && r in states[i].runs
    && exists k: nat :: l < k < i && Saves(states[k], acts[k], states[i].runs[r].x) && acts[k].r != r
  }

  /** Another run of the same execution saved since run r loaded its state. */
  ghost predicate Overtaken(states: seq<Sys>, acts: seq<Action>, r: RunId, i: nat) {
    exists l: nat :: LoadedAt(states, acts, r, l, i) && OtherSaved(states, acts, r, l, i)
  }

  /** No two runs of x are in progress. */
  ghost predicate Alone(s: Sys, x: ExecId) {
    forall q, r | q in s.runs && r in s.runs && s.runs[q].x == x && s.runs[r].x == x :: q == r
  }

  /** How a step changes a run that goes on. */
  lemma RunGoesOn(s: Sys, a: Action, r: RunId)
    requires Enabled(s, a) && r in s.runs && r in Step(s, a).runs
    requires RunOk(s.db, s.runs[r])
    ensures var run, run' := s.runs[r], Step(s, a).runs[r];
      && run'.x == run.x
      && (run'.pc.Fetched? ==> run' == run)
      && (a != LoadState(r) ==> run.st.total <= run'.st.total)
      && (IsStarted(run.pc) ==> IsStarted(run'.pc) && run.seqId <= run'.seqId)
      && (!run.pc.Fetched? ==> !run'.pc.Fetched?)
      && (run.pc.Fetched? && !run'.pc.Fetched? ==> a == LoadState(r))
      && (IsStarted(run'.pc) && !IsStarted(run.pc) ==> run'.seqId == |Step(s, a).db.log|)
      && !a.RecoverAll? && !a.Crash?
  {
    hide Save, SaveFinal, Recover, InOrder, HasInboxStep, Project;
    if a.CommitStep? {
      CommitStepEventsHarmless(s.db, s.runs[a.r].x, a.isTool, a.success, s.runs[a.r].st.total + 1, a.now);
    } else if a.EmitStarted? {
      CommitIsHarmless(s.db, ExecutionStarted(s.runs[a.r].x, s.runs[a.r].agent), a.now);
    }
  }

  lemma RunAppears(s: Sys, a: Action, r: RunId)
    requires Enabled(s, a) && r !in s.runs && r in Step(s, a).runs
    ensures a.Fetch? && a.r == r && Step(s, a).runs[r].pc == Fetched(s.db.execs[a.x].generation)
    ensures a.x in s.db.execs && Step(s, a).runs[r].x == a.x
  {
    hide Commit, CommitStepEvents, Save, SaveFinal, Recover;
  }

  lemma {:induction false} SameExecution(states: seq<Sys>, acts: seq<Action>, r: RunId, k: nat, i: nat)
    requires IsRun(states, acts) && k <= i < |states| && forall q | k <= q <= i :: r in states[q].runs
    ensures states[k].runs[r].x == states[i].runs[r].x
    decreases i
  {
    hide Enabled, Step, Inv, RunOk;
    if k < i {
      SameExecution(states, acts, r, k, i - 1);
      Reachable(states, acts, i - 1);
      InProgressOk(states[i - 1], r);
      assert Next(states[i - 1], acts[i - 1], states[i]);
      RunGoesOn(states[i - 1], acts[i - 1], r);
    }
  }

  lemma InProgressOk(s: Sys, r: RunId)
    requires Inv(s) && r in s.runs
    ensures RunOk(s.db, s.runs[r])
  {
  }

  /** Every run past its start has loaded its state. */
  lemma {:induction false} LoadExists(states: seq<Sys>, acts: seq<Action>, r: RunId, i: nat) returns (l: nat)
    requires IsRun(states, acts) && i < |states| && r in states[i].runs && !states[i].runs[r].pc.Fetched?
    ensures LoadedAt(states, acts, r, l, i)
  {
    hide Enabled, Step, Inv, RunOk;
    assert i > 0;
    var s, a := states[i - 1], acts[i - 1];
    assert Next(s, a, states[i]);
    if r !in s.runs {
      RunAppears(s, a, r);
    }
    Reachable(states, acts, i - 1);
    InProgressOk(s, r);
    RunGoesOn(s, a, r);
    if s.runs[r].pc.Fetched? {
      l := i - 1;
    } else {
      l := LoadExists(states, acts, r, i - 1);
    }
  }

  /** A run that has not loaded its state was fetched, with the generation that the row had then. */
  lemma {:induction false} FetchExists(states: seq<Sys>, acts: seq<Action>, r: RunId, i: nat) returns (f: nat)
    requires IsRun(states, acts) && i < |states| && r in states[i].runs && states[i].runs[r].pc.Fetched?
    ensures f < i && acts[f] == Fetch(r, states[i].runs[r].x) && acts[f].x in states[f].db.execs
    ensures states[i].runs[r].pc.generation == states[f].db.execs[acts[f].x].generation
    ensures forall k | f < k <= i :: r in states[k].runs && states[k].runs[r] == states[i].runs[r]
  {
    hide Enabled, Step, Inv, RunOk;
    assert i > 0;
    var s, a := states[i - 1], acts[i - 1];
    assert Next(s, a, states[i]);
    if r !in s.runs {
      RunAppears(s, a, r);
      f := i - 1;
    } else {
      Reachable(states, acts, i - 1);
      InProgressOk(s, r);
      RunGoesOn(s, a, r);
      f := FetchExists(states, acts, r, i - 1);
    }
  }

  /** What holds of a run that no other run has overtaken: it knows at least what the checkpoint knows. */
  ghost predicate Current(db: Db, run: Run) {
    !run.pc.Fetched?
    && (run.x in db.cps ==>
          db.cps[run.x].generation <= run.st.total && (IsStarted(run.pc) ==> db.cps[run.x].lastSeq <= run.seqId))
  }

  lemma CurrentOnceLoaded(s: Sys, r: RunId)
    requires Inv(s) && Enabled(s, LoadState(r)) && r in Step(s, LoadState(r)).runs
    ensures Current(s.db, Step(s, LoadState(r)).runs[r])
  {
    if s.runs[r].x in s.db.cps {
      assert CheckpointOk(s.db, s.runs[r].x);
    }
  }

  lemma CurrentStep(s: Sys, a: Action, r: RunId)
    requires Inv(s) && Enabled(s, a) && r in s.runs && r in Step(s, a).runs
    requires Current(s.db, s.runs[r])
    requires Saves(s, a, s.runs[r].x) ==> a.r == r
    ensures Current(Step(s, a).db, Step(s, a).runs[r])
  {
    hide RunOk, InOrder, CheckpointOk, Enabled, Step, Inv;
    var run, s' := s.runs[r], Step(s, a);
    InProgressOk(s, r);
    OnlyFetchedLoads(s, a, r);
    RunGoesOn(s, a, r);
    InvStep(s, a);
    CheckpointInLog(s', run.x);
    if a.SaveCp? || a.FinalSave? {
      SaveWrites(s, a, run.x);
    } else {
      OtherStepsHarmless(s, a);
    }
  }

  lemma OnlyFetchedLoads(s: Sys, a: Action, r: RunId)
    requires Enabled(s, a) && r in s.runs
    ensures a == LoadState(r) ==> s.runs[r].pc.Fetched?
  {
  }

  lemma CheckpointInLog(s: Sys, x: ExecId)
    requires Inv(s)
    ensures x in s.db.cps ==> s.db.cps[x].lastSeq <= |s.db.log|
  {
    hide InOrder;
    assert x in s.db.cps ==> CheckpointOk(s.db, x);
  }

  /** What a save does to the checkpoint and generation of an execution. */
  lemma SaveWrites(s: Sys, a: Action, x: ExecId)
    requires Inv(s) && Enabled(s, a) && (a.SaveCp? || a.FinalSave?)
    ensures var db, db' := s.db, Step(s, a).db;
      if Saves(s, a, x) then
        && x in db.execs && x in db'.cps && x in db'.execs
        && db'.cps[x].snapshot == s.runs[a.r].st && db'.cps[x].lastSeq == s.runs[a.r].seqId
        && db'.cps[x].generation == s.runs[a.r].st.total == db'.execs[x].generation
        && a.r in Step(s, a).runs && Step(s, a).runs[a.r].st == s.runs[a.r].st
        && Step(s, a).runs[a.r].seqId == s.runs[a.r].seqId
      else
        && (x in db.cps <==> x in db'.cps) && (x in db.cps ==> db'.cps[x] == db.cps[x])
        && (x in db.execs <==> x in db'.execs) && (x in db.execs ==> db'.execs[x].generation == db.execs[x].generation)
  {
    hide InOrder;
    assert RunOk(s.db, s.runs[a.r]);
  }

  lemma {:induction false} CurrentRun(states: seq<Sys>, acts: seq<Action>, r: RunId, l: nat, i: nat)
    requires IsRun(states, acts) && LoadedAt(states, acts, r, l, i) && !OtherSaved(states, acts, r, l, i)
    ensures Current(states[i].db, states[i].runs[r])
    decreases i
  {
    hide Enabled, Step, Inv, Current;
    var s, a := states[i - 1], acts[i - 1];
    Reachable(states, acts, i - 1);
    assert Next(s, a, states[i]);
    if l == i - 1 {
      CurrentOnceLoaded(s, r);
      LoadKeepsTables(s, r);
    } else {
      SameExecution(states, acts, r, i - 1, i);
      hide Saves;
      assert !OtherSaved(states, acts, r, l, i - 1);
      CurrentRun(states, acts, r, l, i - 1);
      CurrentStep(s, a, r);
    }
  }

  lemma LoadKeepsTables(s: Sys, r: RunId)
    requires Enabled(s, LoadState(r))
    ensures Step(s, LoadState(r)).db == s.db
  {
  }

  lemma OnlyRunSaves(s: Sys, a: Action, x: ExecId, r: RunId)
    requires Alone(s, x) && r in s.runs && s.runs[r].x == x
    ensures Saves(s, a, x) ==> a.r == r
  {
  }

  /** As long as no two runs of an execution are in progress, none is overtaken. */
  lemma AloneIsNotOvertaken(states: seq<Sys>, acts: seq<Action>, r: RunId, i: nat)
    requires IsRun(states, acts) && i < |states| && r in states[i].runs
    requires forall k | 0 <= k < i :: Alone(states[k], states[i].runs[r].x)
    ensures !Overtaken(states, acts, r, i)
  {
    var x := states[i].runs[r].x;
    forall l: nat | LoadedAt(states, acts, r, l, i)
      ensures !OtherSaved(states, acts, r, l, i)
    {
      forall k: nat | l < k < i
        ensures Saves(states[k], acts[k], x) ==> acts[k].r == r
      {
        SameExecution(states, acts, r, k, i);
        OnlyRunSaves(states[k], acts[k], x, r);
      }
    }
  }

  // ---------- Checkpoints and generations ----------

  lemma RecoveryRaises(db: Db, x: ExecId)
    requires x in db.cps && CheckpointOk(db, x)
    ensures var cps' := Recover(db).cps;
      x in cps' && db.cps[x].lastSeq <= cps'[x].lastSeq && db.cps[x].generation <= cps'[x].generation
  {
    var cp := db.cps[x];
    ReplayTotal(cp.snapshot, x, db.log, cp.lastSeq);
    var total := Replay(cp.snapshot, x, db.log, cp.lastSeq).total;
    TotalCovers(total, cp.snapshot.total, db.log, cp.lastSeq, x, cp.snapshot.conv);
  }

  /** In one step the sequence number of a checkpoint falls only to that of a run that saves, and the
      generation only to its total. */
  lemma CheckpointStep(s: Sys, a: Action, x: ExecId)
    requires Inv(s) && Enabled(s, a) && x in s.db.cps
    ensures var cp, cps' := s.db.cps[x], Step(s, a).db.cps;
      && x in cps'
      && (cps'[x].lastSeq < cp.lastSeq <==> Saves(s, a, x) && s.runs[a.r].seqId < cp.lastSeq)
      && (cps'[x].generation < cp.generation <==> Saves(s, a, x) && s.runs[a.r].st.total < cp.generation)
  {
    if a.RecoverAll? {
      hide InOrder;
      assert CheckpointOk(s.db, x);
      RecoveryRaises(s.db, x);
    } else if a.SaveCp? || a.FinalSave? {
      hide InOrder, Step, Enabled, CheckpointOk, RunOk;
      SaveWrites(s, a, x);
    } else {
      hide Inv, Step, Enabled;
      OtherStepsHarmless(s, a);
    }
  }

  /** Saves from step i to step j come from runs that no other run of x has overtaken. */
  ghost predicate SavesInTurn(states: seq<Sys>, acts: seq<Action>, i: nat, j: nat, x: ExecId) {
    j < |states| && j <= |acts|
    && forall k | i <= k < j && Saves(states[k], acts[k], x) :: !Overtaken(states, acts, acts[k].r, k)
  }

  /** Runs of x save in turn as long as no two of them are in progress. */
  lemma AloneSavesInTurn(states: seq<Sys>, acts: seq<Action>, j: nat, x: ExecId)
    requires IsRun(states, acts) && j < |states|
    requires forall k | 0 <= k < j :: Alone(states[k], x)
    ensures SavesInTurn(states, acts, 0, j, x)
  {
    hide Overtaken, Alone, Init, Next;
    forall k: nat | k < j && Saves(states[k], acts[k], x)
      ensures !Overtaken(states, acts, acts[k].r, k)
    {
      AloneIsNotOvertaken(states, acts, acts[k].r, k);
    }
  }

  lemma SavesInTurnOneLess(states: seq<Sys>, acts: seq<Action>, i: nat, j: nat, x: ExecId)
    requires SavesInTurn(states, acts, i, j, x) && i < j
    ensures SavesInTurn(states, acts, i, j - 1, x)
    ensures Saves(states[j - 1], acts[j - 1], x) ==> !Overtaken(states, acts, acts[j - 1].r, j - 1)
  {
    hide Overtaken, Saves;
  }

  /** A run that saves without having been overtaken knows at least what the checkpoint knows. */
  lemma SaverIsCurrent(states: seq<Sys>, acts: seq<Action>, k: nat, x: ExecId)
    requires IsRun(states, acts) && k < |acts| && Saves(states[k], acts[k], x)
    requires !Overtaken(states, acts, acts[k].r, k)
    ensures Current(states[k].db, states[k].runs[acts[k].r]) && IsStarted(states[k].runs[acts[k].r].pc)
  {
    hide Step, Inv, LoadedAt, OtherSaved, Current;
    assert Next(states[k], acts[k], states[k + 1]);
    var l := LoadExists(states, acts, acts[k].r, k);
    CurrentRun(states, acts, acts[k].r, l, k);
  }

  /** The sequence number and the generation of a checkpoint never fall while runs save in turn. */
  lemma {:induction false} CheckpointsGrow(states: seq<Sys>, acts: seq<Action>, i: nat, j: nat, x: ExecId)
    requires IsRun(states, acts) && i <= j && SavesInTurn(states, acts, i, j, x) && x in states[i].db.cps
    ensures x in states[j].db.cps
    ensures states[i].db.cps[x].lastSeq <= states[j].db.cps[x].lastSeq
    ensures states[i].db.cps[x].generation <= states[j].db.cps[x].generation
    decreases j
  {
    hide Enabled, Step, Inv, SavesInTurn, Overtaken;
    assert j < |states| by {
      InRange(states, acts, i, j, x);
    }
    if i < j {
      var s, a := states[j - 1], acts[j - 1];
      SavesInTurnOneLess(states, acts, i, j, x);
      CheckpointsGrow(states, acts, i, j - 1, x);
      Reachable(states, acts, j - 1);
      assert Next(s, a, states[j]);
      CheckpointStep(s, a, x);
      if Saves(s, a, x) {
        SaverIsCurrent(states, acts, j - 1, x);
      }
    }
  }

  lemma InRange(states: seq<Sys>, acts: seq<Action>, i: nat, j: nat, x: ExecId)
    requires SavesInTurn(states, acts, i, j, x)
    ensures j < |states| && j <= |acts|
  {
  }

  /** In every committed state an execution and its checkpoint have the same generation, which is the step
      total of the snapshot. */
  lemma GenerationsAgree(states: seq<Sys>, acts: seq<Action>, i: nat, x: ExecId)
    requires IsRun(states, acts) && i < |states| && x in states[i].db.cps
    ensures x in states[i].db.execs
    ensures states[i].db.execs[x].generation == states[i].db.cps[x].generation == states[i].db.cps[x].snapshot.total
  {
    Reachable(states, acts, i);
    assert CheckpointOk(states[i].db, x);
  }

  /** Without a save the generation of a row in use does not change, unless a recovery clears all runs. */
  lemma GenerationKept(s: Sys, a: Action, x: ExecId)
    requires Inv(s) && Enabled(s, a) && x in s.db.execs && !Saves(s, a, x) && !a.RecoverAll?
    ensures x in Step(s, a).db.execs && Step(s, a).db.execs[x].generation == s.db.execs[x].generation
    ensures x in Step(s, a).db.cps ==> x in s.db.cps
  {
    if a.SaveCp? || a.FinalSave? {
      hide Step, Enabled, InOrder, CheckpointOk, RunOk;
      SaveWrites(s, a, x);
    } else {
      hide Inv, Step, Enabled;
      OtherStepsHarmless(s, a);
    }
  }

  lemma {:induction false} GenerationKeptSince(states: seq<Sys>, acts: seq<Action>, f: nat, i: nat, r: RunId, x: ExecId)
    requires IsRun(states, acts) && f < i < |states| && x in states[f].db.execs
    requires acts[f].Fetch? && forall k | f < k <= i :: r in states[k].runs
    requires forall k | f < k < i :: !Saves(states[k], acts[k], x)
    ensures x in states[i].db.execs && states[i].db.execs[x].generation == states[f].db.execs[x].generation
    decreases i
  {
    hide Enabled, Step, Inv, Saves;
    var s, a := states[i - 1], acts[i - 1];
    Reachable(states, acts, i - 1);
    assert Next(s, a, states[i]);
    if f == i - 1 {
      FetchSavesNothing(s, a, x);
    } else {
      GenerationKeptSince(states, acts, f, i - 1, r, x);
      InProgressOk(s, r);
      RunGoesOn(s, a, r);
    }
    GenerationKept(s, a, x);
  }

  lemma FetchSavesNothing(s: Sys, a: Action, x: ExecId)
    requires a.Fetch?
    ensures !Saves(s, a, x)
  {
  }

  /** A load meets a stale generation if and only if the generation of the row is not the one that was fetched,
      and then another run of the execution saved in between. Otherwise it finds the saved state exactly when
      there is one. */
  lemma LoadStaleExactlyWhen(states: seq<Sys>, acts: seq<Action>, i: nat) returns (f: nat)
    requires IsRun(states, acts) && i < |acts| && acts[i].LoadState?
    ensures acts[i].r in states[i].runs && states[i].runs[acts[i].r].pc.Fetched?
    ensures forall k | f < k <= i ::
      acts[i].r in states[k].runs && states[k].runs[acts[i].r] == states[i].runs[acts[i].r]
    ensures var s, r, x := states[i], acts[i].r, states[i].runs[acts[i].r].x;
      var loaded := Load(s.db, x, s.runs[r].pc.generation);
      && f < i && acts[f] == Fetch(r, x) && x in s.db.execs && x in states[f].db.execs
      && (loaded.StaleGeneration? <==> s.db.execs[x].generation != states[f].db.execs[x].generation)
      && (loaded.StaleGeneration? ==> exists k | f < k < i :: Saves(states[k], acts[k], x) && acts[k].r != r)
      && (!loaded.StaleGeneration? ==>
            loaded == if x in s.db.cps then State(s.db.cps[x].snapshot) else NoCheckpoint)
  {
    var s, r := states[i], acts[i].r;
    Reachable(states, acts, i);
    assert Next(s, acts[i], states[i + 1]);
    var x := s.runs[r].x;
    InProgressOk(s, r);
    f := FetchExists(states, acts, r, i);
    if x in s.db.cps {
      assert CheckpointOk(s.db, x);
    }
    hide Step, Inv, RunOk, CheckpointOk, Saves;
    if forall k | f < k < i :: !Saves(states[k], acts[k], x) {
      GenerationKeptSince(states, acts, f, i, r, x);
    } else {
      var k :| f < k < i && Saves(states[k], acts[k], x);
      assert acts[k].r != r by {
        FetchedDoesNotSave(states, acts, k, r, x);
      }
      hide Enabled;
      CheckpointStaysSince(states, acts, k, i, x);
    }
  }

  lemma FetchedDoesNotSave(states: seq<Sys>, acts: seq<Action>, k: nat, r: RunId, x: ExecId)
    requires IsRun(states, acts) && k < |acts| && Saves(states[k], acts[k], x)
    requires r in states[k].runs && states[k].runs[r].pc.Fetched?
    ensures acts[k].r != r
  {
    assert Next(states[k], acts[k], states[k + 1]);
  }

  /** A checkpoint is never removed. */
  lemma {:induction false} CheckpointStaysSince(states: seq<Sys>, acts: seq<Action>, k: nat, i: nat, x: ExecId)
    requires IsRun(states, acts) && k < i < |states| && Saves(states[k], acts[k], x)
    ensures x in states[i].db.cps
    decreases i
  {
    hide Enabled, Step, Inv;
    var s, a := states[i - 1], acts[i - 1];
    Reachable(states, acts, i - 1);
    assert Next(s, a, states[i]);
    if k == i - 1 {
      SaveWrites(s, a, x);
    } else {
      CheckpointStaysSince(states, acts, k, i - 1, x);
      CheckpointStep(s, a, x);
    }
  }

  /** With no other run of the execution in progress, loading a checkpoint never meets a stale generation. */
  lemma LoadNeverStale(states: seq<Sys>, acts: seq<Action>, i: nat)
    requires IsRun(states, acts) && i < |acts| && acts[i].LoadState? && acts[i].r in states[i].runs
    requires forall k | 0 <= k < i :: Alone(states[k], states[i].runs[acts[i].r].x)
    ensures var s, x := states[i], states[i].runs[acts[i].r].x;
      && s.runs[acts[i].r].pc.Fetched?
      && Load(s.db, x, s.runs[acts[i].r].pc.generation)
         == if x in s.db.cps then State(s.db.cps[x].snapshot) else NoCheckpoint
  {
    var r, x := acts[i].r, states[i].runs[acts[i].r].x;
    var f := LoadStaleExactlyWhen(states, acts, i);
    hide Inv, Step, Enabled, IsRun;
    forall k | f < k < i
      ensures Saves(states[k], acts[k], x) ==> acts[k].r == r
    {
      OnlyRunSaves(states[k], acts[k], x, r);
    }
  }

  lemma GenerationAtSave(s: Sys, a: Action, x: ExecId)
    requires Inv(s) && Enabled(s, a) && Saves(s, a, x)
    ensures x in s.db.execs && x in Step(s, a).db.execs
    ensures Step(s, a).db.execs[x].generation == s.runs[a.r].st.total
  {
    hide Step, Enabled, InOrder, CheckpointOk;
    SaveWrites(s, a, x);
  }

  lemma GenerationAtRecovery(s: Sys, x: ExecId)
    requires Inv(s) && Enabled(s, RecoverAll) && x in s.db.execs
    ensures x in Step(s, RecoverAll).db.execs
    ensures Step(s, RecoverAll).db.execs[x].generation < s.db.execs[x].generation
      <==> x !in s.db.cps && IsCrashed(s.db.execs[x]) && s.db.execs[x].generation >= 1
  {
    hide InOrder;
    if x in s.db.cps {
      assert CheckpointOk(s.db, x);
      RecoveryRaises(s.db, x);
    }
  }

  /** The generation of an execution falls in a step if and only if a run saves a smaller total over it, or a
      recovery finds it running, without a checkpoint, at a generation of at least 1. */
  lemma GenerationFallsExactlyWhen(states: seq<Sys>, acts: seq<Action>, i: nat, x: ExecId)
    requires IsRun(states, acts) && i < |acts| && x in states[i].db.execs
    ensures x in states[i + 1].db.execs
    ensures var s, a := states[i], acts[i];
      states[i + 1].db.execs[x].generation < s.db.execs[x].generation
      <==> || (Saves(s, a, x) && s.runs[a.r].st.total < s.db.execs[x].generation)
           || (a.RecoverAll? && x !in s.db.cps && IsCrashed(s.db.execs[x]) && s.db.execs[x].generation >= 1)
  {
    var s, a := states[i], acts[i];
    Reachable(states, acts, i);
    assert Next(s, a, states[i + 1]);
    if Saves(s, a, x) {
      GenerationAtSave(s, a, x);
    } else if a.RecoverAll? {
      GenerationAtRecovery(s, x);
    } else {
      GenerationKept(s, a, x);
    }
  }

  lemma TablesAgree(s: Sys, x: ExecId)
    requires Inv(s) && x in s.db.execs
    ensures if x in s.db.cps then s.db.cps[x].generation == s.db.execs[x].generation else s.db.execs[x].generation <= 1
  {
    hide InOrder;
    assert x in s.db.cps ==> CheckpointOk(s.db, x);
  }

  /** A run saves a smaller total only in two situations: another run of the execution saved since it loaded its
      state, or the row was inserted with generation 1 and its first checkpoint holds an empty history. */
  lemma SmallerTotalMeansOvertaken(states: seq<Sys>, acts: seq<Action>, i: nat, x: ExecId)
    requires IsRun(states, acts) && i < |acts| && Saves(states[i], acts[i], x) && x in states[i].db.execs
    requires states[i].runs[acts[i].r].st.total < states[i].db.execs[x].generation
    ensures Overtaken(states, acts, acts[i].r, i)
      || (x !in states[i].db.cps && states[i].db.execs[x].generation == 1 && states[i].runs[acts[i].r].st.total == 0)
  {
    hide Overtaken, Step, Enabled;
    Reachable(states, acts, i);
    if !Overtaken(states, acts, acts[i].r, i) {
      SaverIsCurrent(states, acts, i, x);
      TablesAgree(states[i], x);
    }
  }

  /** The generation of an execution never falls while its runs save in turn, if it was inserted with generation 0
      or has a checkpoint. */
  lemma {:induction false} GenerationGrows(states: seq<Sys>, acts: seq<Action>, i: nat, j: nat, x: ExecId)
    requires IsRun(states, acts) && i <= j && SavesInTurn(states, acts, i, j, x) && x in states[i].db.execs
    requires x in states[i].db.cps || states[i].db.execs[x].generation == 0
    ensures j < |states| && x in states[j].db.execs
    ensures states[i].db.execs[x].generation <= states[j].db.execs[x].generation
    ensures x in states[j].db.cps || states[j].db.execs[x].generation == 0
    decreases j
  {
    hide Enabled, Step, Inv, SavesInTurn, Overtaken;
    InRange(states, acts, i, j, x);
    if i < j {
      var s, a := states[j - 1], acts[j - 1];
      SavesInTurnOneLess(states, acts, i, j, x);
      GenerationGrows(states, acts, i, j - 1, x);
      GenerationFallsExactlyWhen(states, acts, j - 1, x);
      Reachable(states, acts, j - 1);
      assert Next(s, a, states[j]);
      if Saves(s, a, x) {
        if s.runs[a.r].st.total < s.db.execs[x].generation {
          SmallerTotalMeansOvertaken(states, acts, j - 1, x);
        }
        SaveWrites(s, a, x);
      } else if a.RecoverAll? {
        RecoveredGeneration(s, x);
      } else {
        GenerationKept(s, a, x);
        if x in s.db.cps {
          CheckpointStep(s, a, x);
        }
      }
    }
  }

  lemma RecoveredGeneration(s: Sys, x: ExecId)
    requires Inv(s) && Enabled(s, RecoverAll) && x in s.db.execs && (x in s.db.cps || s.db.execs[x].generation == 0)
    ensures var db' := Step(s, RecoverAll).db;
      x in db'.execs && (x in db'.cps || db'.execs[x].generation == 0)
  {
    hide Replay;
  }

  // ---------- Replay ----------

  /** A recovery in this state folds event q into the snapshot of x. */
  predicate Replays(db: Db, x: ExecId, q: nat) {
    x in Crashed(db.execs) && x in db.cps && db.cps[x].lastSeq < q <= |db.log|
  }

  /** An event that a checkpoint already covers is never replayed into it later, while runs save in turn. */
  lemma CoveredNeverReplayed(states: seq<Sys>, acts: seq<Action>, i: nat, j: nat, x: ExecId, q: nat)
    requires IsRun(states, acts) && i <= j && SavesInTurn(states, acts, i, j, x)
    requires x in states[i].db.cps && q <= states[i].db.cps[x].lastSeq
    ensures j < |states| && !Replays(states[j].db, x, q)
  {
    CheckpointsGrow(states, acts, i, j, x);
  }

  /** Everything that knows about the log knows its first n events: all runs past their start, and the
      checkpoint of x. */
  ghost predicate KnowsLog(s: Sys, x: ExecId, n: nat) {
    && n <= |s.db.log|
    && (forall r | r in s.runs && IsStarted(s.runs[r].pc) :: n <= s.runs[r].seqId)
    && x in s.db.cps && n <= s.db.cps[x].lastSeq
  }

  lemma KnowsLogStep(s: Sys, a: Action, x: ExecId, n: nat)
    requires Inv(s) && Enabled(s, a) && KnowsLog(s, x, n)
    ensures KnowsLog(Step(s, a), x, n)
  {
    CheckpointStep(s, a, x);
    var s' := Step(s, a);
    LogGrows(s, a);
    assert Saves(s, a, x) ==> IsStarted(s.runs[a.r].pc) && n <= s.runs[a.r].seqId;
    hide CheckpointOk, RunOk;
    forall r | r in s'.runs && IsStarted(s'.runs[r].pc)
      ensures n <= s'.runs[r].seqId
    {
      if r in s.runs {
        InProgressOk(s, r);
        RunGoesOn(s, a, r);
      } else {
        RunAppears(s, a, r);
      }
    }
    if Saves(s, a, x) {
      SaveWrites(s, a, x);
    }
  }

  lemma LogGrows(s: Sys, a: Action)
    requires Inv(s) && Enabled(s, a)
    ensures s.db.log <= Step(s, a).db.log
  {
    if !a.SaveCp? && !a.FinalSave? && !a.RecoverAll? {
      hide Step, Inv, Enabled;
      OtherStepsHarmless(s, a);
    }
  }

  lemma {:induction false} KnowsLogAfter(states: seq<Sys>, acts: seq<Action>, i: nat, j: nat, x: ExecId)
    requires IsRun(states, acts) && i < j < |states| && acts[i].RecoverAll?
    requires x in Crashed(states[i].db.execs) && x in states[i].db.cps
    ensures KnowsLog(states[j], x, |states[i].db.log|)
    decreases j
  {
    hide Enabled, Step, Inv, KnowsLog;
    assert Next(states[j - 1], acts[j - 1], states[j]);
    Reachable(states, acts, j - 1);
    if i == j - 1 {
      RecoveryKnowsLog(states[i], x);
    } else {
      KnowsLogAfter(states, acts, i, j - 1, x);
      KnowsLogStep(states[j - 1], acts[j - 1], x, |states[i].db.log|);
    }
  }

  lemma RecoveryKnowsLog(s: Sys, x: ExecId)
    requires Enabled(s, RecoverAll) && x in Crashed(s.db.execs) && x in s.db.cps
    ensures KnowsLog(Step(s, RecoverAll), x, |s.db.log|)
  {
  }

  /** Over any run, recoveries fold each log event into the snapshot of an execution at most once, however many
      runs of it there are: a crash ends them all, and every later one starts beyond the replayed events. */
  lemma ReplayedOnce(states: seq<Sys>, acts: seq<Action>, i: nat, j: nat, x: ExecId, q: nat)
    requires IsRun(states, acts) && i < j < |acts| && acts[i].RecoverAll? && acts[j].RecoverAll?
    requires Replays(states[i].db, x, q)
    ensures !Replays(states[j].db, x, q)
  {
    KnowsLogAfter(states, acts, i, j, x);
  }

  /** What a recovery does to the snapshot of a crashed execution: the old steps stay, one step is appended
      for each later event that counts, no two steps of the result record the same event, step numbers stay
      increasing, and the total is exactly what the checkpoint, the completed step numbers and the counted events
      make it. */
  lemma RecoveryAppends(states: seq<Sys>, acts: seq<Action>, i: nat, x: ExecId)
    requires IsRun(states, acts) && i < |acts| && acts[i].RecoverAll?
    requires x in Crashed(states[i].db.execs) && x in states[i].db.cps
    ensures x in states[i + 1].db.cps
    ensures var log, cp, cp' := states[i].db.log, states[i].db.cps[x], states[i + 1].db.cps[x];
      && cp.lastSeq <= |log| == cp'.lastSeq
      && cp.snapshot.steps <= cp'.snapshot.steps
      && Kinds(cp'.snapshot.steps)
         == Kinds(cp.snapshot.steps) + ReplayedKinds(Counted(log, cp.lastSeq, x, cp.snapshot.conv))
      && InOrder(cp'.snapshot, |log|)
      && IsReplayTotal(cp'.snapshot.total, cp.snapshot.total, log, cp.lastSeq, x, cp.snapshot.conv)
      && cp.snapshot.total <= cp'.snapshot.total
      && forall q | cp.lastSeq < q <= |log| :: StepNumber(log, q, x) <= cp'.snapshot.total
  {
    Reachable(states, acts, i);
    assert CheckpointOk(states[i].db, x);
    assert Next(states[i], acts[i], states[i + 1]);
    var log, cp := states[i].db.log, states[i].db.cps[x];
    ReplayAppends(cp.snapshot, x, log, cp.lastSeq);
    ReplayInOrder(cp.snapshot, x, log, cp.lastSeq);
    ReplayTotal(cp.snapshot, x, log, cp.lastSeq);
    var total := Replay(cp.snapshot, x, log, cp.lastSeq).total;
    TotalCovers(total, cp.snapshot.total, log, cp.lastSeq, x, cp.snapshot.conv);
  }

  /** Step numbers other than those of summaries increase, and no log event is recorded twice, in every
      checkpoint and in the memory of every run, however many runs of an execution there are. */
  lemma HistoriesInOrder(states: seq<Sys>, acts: seq<Action>, i: nat, x: ExecId, r: RunId)
    requires IsRun(states, acts) && i < |states|
    ensures x in states[i].db.cps ==> InOrder(states[i].db.cps[x].snapshot, states[i].db.cps[x].lastSeq)
    ensures r in states[i].runs ==>
      var run := states[i].runs[r];
      InOrder(run.st, if IsStarted(run.pc) then run.seqId else |states[i].db.log|)
  {
    Reachable(states, acts, i);
    if x in states[i].db.cps {
      assert CheckpointOk(states[i].db, x);
    }
    if r in states[i].runs {
      assert RunOk(states[i].db, states[i].runs[r]);
    }
  }
}
