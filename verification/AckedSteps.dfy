/** Where the step of an acknowledged message is found after its acknowledgement. */
module AckedSteps {
  import opened Wrappers
  import opened Durable
  import opened RunProtocol
  import opened RunTheorems

  /** In step q run r compacts its history, and the step that delivered m is among the dropped ones. */
  ghost predicate Drops(states: seq<Sys>, acts: seq<Action>, q: nat, r: RunId, m: MsgId) {
    && q < |acts| && q + 1 < |states| && acts[q].Compact? && acts[q].r == r
    && r in states[q].runs && HasInboxStep(states[q].runs[r].st, m)
    && r in states[q + 1].runs && !HasInboxStep(states[q + 1].runs[r].st, m)
  }

  /** Run r dropped the step that delivered m since it loaded its state. */
  ghost predicate Dropped(states: seq<Sys>, acts: seq<Action>, r: RunId, i: nat, m: MsgId) {
    exists l: nat, q: nat :: LoadedAt(states, acts, r, l, i) && l < q < i && Drops(states, acts, q, r, m)
  }

  /** No run that saves for x from step i to step j had dropped the step that delivered m. */
  ghost predicate SaversKeep(states: seq<Sys>, acts: seq<Action>, i: nat, j: nat, x: ExecId, m: MsgId) {
    j < |states| && j <= |acts|
    && forall k | i <= k < j && Saves(states[k], acts[k], x) :: !Dropped(states, acts, acts[k].r, k, m)
  }

  lemma SaversKeepOneLess(states: seq<Sys>, acts: seq<Action>, i: nat, j: nat, x: ExecId, m: MsgId)
    requires SaversKeep(states, acts, i, j, x, m) && i < j
    ensures SaversKeep(states, acts, i, j - 1, x, m)
    ensures Saves(states[j - 1], acts[j - 1], x) ==> !Dropped(states, acts, acts[j - 1].r, j - 1, m)
  {
    hide Dropped, Saves;
  }

  lemma PrefixHolds(st: ExecutionState, st': ExecutionState, m: MsgId)
    requires st.steps <= st'.steps && HasInboxStep(st, m)
    ensures HasInboxStep(st', m)
  {
    var i :| 0 <= i < |st.steps| && st.steps[i].kind == FromInbox(m);
    assert st'.steps[i] == st.steps[i];
  }

  /** Only a load and a compaction take steps out of a run's history. */
  lemma RunKeepsSteps(s: Sys, a: Action, r: RunId)
    requires Enabled(s, a) && r in s.runs && r in Step(s, a).runs
    ensures s.runs[r].st.steps <= Step(s, a).runs[r].st.steps || a == LoadState(r) || (a.Compact? && a.r == r)
  {
    hide Save, SaveFinal, Recover, Commit, CommitStepEvents;
  }

  lemma HoldStep(s: Sys, a: Action, r: RunId, m: MsgId)
    requires Inv(s) && Enabled(s, a) && r in s.runs && r in Step(s, a).runs && !s.runs[r].pc.Fetched?
    requires InCheckpoint(s.db, s.runs[r].x, m) ==> HasInboxStep(s.runs[r].st, m)
    requires Saves(s, a, s.runs[r].x) ==> a.r == r
    requires a.Compact? && a.r == r && HasInboxStep(s.runs[r].st, m) ==> HasInboxStep(Step(s, a).runs[r].st, m)
    ensures InCheckpoint(Step(s, a).db, Step(s, a).runs[r].x, m) ==> HasInboxStep(Step(s, a).runs[r].st, m)
  {
    var run, run' := s.runs[r], Step(s, a).runs[r];
    InProgressOk(s, r);
    RunGoesOn(s, a, r);
    RunKeepsSteps(s, a, r);
    hide RunOk, HasInboxStep;
    if HasInboxStep(run.st, m) && run.st.steps <= run'.st.steps {
      PrefixHolds(run.st, run'.st, m);
    }
    if a.SaveCp? || a.FinalSave? {
      SaveWrites(s, a, run.x);
      hide Step, Inv;
    } else {
      OtherStepsHarmless(s, a);
      hide Step, Inv;
    }
  }

  lemma {:induction false} HoldsSince(states: seq<Sys>, acts: seq<Action>, r: RunId, l: nat, i: nat, m: MsgId)
    requires IsRun(states, acts) && LoadedAt(states, acts, r, l, i) && !OtherSaved(states, acts, r, l, i)
    requires forall q: nat | l < q < i :: !Drops(states, acts, q, r, m)
    ensures InCheckpoint(states[i].db, states[i].runs[r].x, m) ==> HasInboxStep(states[i].runs[r].st, m)
    decreases i
  {
    hide Enabled, Step, Inv, HasInboxStep;
    var s, a := states[i - 1], acts[i - 1];
    Reachable(states, acts, i - 1);
    assert Next(s, a, states[i]);
    if l == i - 1 {
      LoadHolds(s, r, m);
    } else {
      SameExecution(states, acts, r, i - 1, i);
      StaysLoaded(states, acts, r, l, i - 1);
      assert !OtherSaved(states, acts, r, l, i - 1) by {
        hide Saves;
      }
      HoldsSince(states, acts, r, l, i - 1, m);
      assert !Drops(states, acts, i - 1, r, m);
      HoldStep(s, a, r, m);
    }
  }

  lemma {:induction false} StaysLoaded(states: seq<Sys>, acts: seq<Action>, r: RunId, l: nat, i: nat)
    requires IsRun(states, acts) && LoadedAt(states, acts, r, l, i)
    ensures !states[i].runs[r].pc.Fetched?
    decreases i
  {
    hide Enabled, Step, Inv, RunOk;
    Reachable(states, acts, i - 1);
    assert Next(states[i - 1], acts[i - 1], states[i]);
    if l == i - 1 {
      LoadedIsNotFetched(states[l], r);
    } else {
      StaysLoaded(states, acts, r, l, i - 1);
      InProgressOk(states[i - 1], r);
      RunGoesOn(states[i - 1], acts[i - 1], r);
    }
  }

  lemma LoadedIsNotFetched(s: Sys, r: RunId)
    requires Enabled(s, LoadState(r)) && r in Step(s, LoadState(r)).runs
    ensures !Step(s, LoadState(r)).runs[r].pc.Fetched?
  {
  }

  lemma LoadHolds(s: Sys, r: RunId, m: MsgId)
    requires Enabled(s, LoadState(r)) && r in Step(s, LoadState(r)).runs
    ensures var s' := Step(s, LoadState(r));
      InCheckpoint(s'.db, s'.runs[r].x, m) ==> HasInboxStep(s'.runs[r].st, m)
  {
  }

  lemma RecoveryHolds(s: Sys, x: ExecId, m: MsgId)
    requires Enabled(s, RecoverAll) && InCheckpoint(s.db, x, m)
    ensures InCheckpoint(Step(s, RecoverAll).db, x, m)
  {
    hide HasInboxStep;
    var cp := s.db.cps[x];
    ReplayAppends(cp.snapshot, x, s.db.log, cp.lastSeq);
    PrefixHolds(cp.snapshot, Replay(cp.snapshot, x, s.db.log, cp.lastSeq), m);
  }

  /** In one step a checkpoint loses the step that delivered m if and only if a run saves without it. */
  lemma LosesStep(s: Sys, a: Action, x: ExecId, m: MsgId)
    requires Inv(s) && Enabled(s, a) && InCheckpoint(s.db, x, m)
    ensures !InCheckpoint(Step(s, a).db, x, m) <==> Saves(s, a, x) && !HasInboxStep(s.runs[a.r].st, m)
  {
    hide Enabled, Step, Inv, HasInboxStep;
    if a.RecoverAll? {
      RecoveryHolds(s, x, m);
    } else if a.SaveCp? || a.FinalSave? {
      SaveWrites(s, a, x);
    } else {
      OtherStepsHarmless(s, a);
    }
  }

  /** In any step of any run of the system the same. */
  lemma LosesStepExactlyWhen(states: seq<Sys>, acts: seq<Action>, i: nat, x: ExecId, m: MsgId)
    requires IsRun(states, acts) && i < |acts| && InCheckpoint(states[i].db, x, m)
    ensures !InCheckpoint(states[i + 1].db, x, m)
      <==> Saves(states[i], acts[i], x) && !HasInboxStep(states[i].runs[acts[i].r].st, m)
  {
    hide Enabled, Step, Inv;
    Reachable(states, acts, i);
    assert Next(states[i], acts[i], states[i + 1]);
    LosesStep(states[i], acts[i], x, m);
  }

  /** A run that saves without the step was overtaken, or dropped the step in a compaction, since it loaded. */
  lemma LosesStepMeans(states: seq<Sys>, acts: seq<Action>, k: nat, x: ExecId, m: MsgId)
    requires IsRun(states, acts) && k < |acts| && Saves(states[k], acts[k], x) && InCheckpoint(states[k].db, x, m)
    requires !HasInboxStep(states[k].runs[acts[k].r].st, m)
    ensures Overtaken(states, acts, acts[k].r, k) || Dropped(states, acts, acts[k].r, k, m)
  {
    hide Step, Inv, Drops, HasInboxStep, OtherSaved, LoadedAt;
    var r := acts[k].r;
    assert Next(states[k], acts[k], states[k + 1]);
    if !Dropped(states, acts, r, k, m) && !Overtaken(states, acts, r, k) {
      var l := LoadExists(states, acts, r, k);
      HoldsSince(states, acts, r, l, k, m);
    }
  }

  /** Once a checkpoint holds the step that delivered m, it stays there through all later saves, crashes and
      recoveries, while runs save in turn and none of them dropped the step in a compaction since it loaded. */
  lemma {:induction false} StepStays(states: seq<Sys>, acts: seq<Action>, i: nat, j: nat, x: ExecId, m: MsgId)
    requires IsRun(states, acts) && i <= j && HeldAt(states, i, x, m)
    requires SavesInTurn(states, acts, i, j, x) && SaversKeep(states, acts, i, j, x, m)
    ensures HeldAt(states, j, x, m)
    decreases j
  {
    hide Enabled, Step, Inv, SavesInTurn, SaversKeep, Overtaken, Dropped, HasInboxStep;
    InRange(states, acts, i, j, x);
    if i < j {
      SavesInTurnOneLess(states, acts, i, j, x);
      SaversKeepOneLess(states, acts, i, j, x, m);
      StepStays(states, acts, i, j - 1, x, m);
      LosesStepExactlyWhen(states, acts, j - 1, x, m);
      if Saves(states[j - 1], acts[j - 1], x) && !HasInboxStep(states[j - 1].runs[acts[j - 1].r].st, m) {
        LosesStepMeans(states, acts, j - 1, x, m);
      }
    }
  }

  /** So the step of an acknowledged message is in the current checkpoint of the execution whose run acknowledged
      it, as long as, since the save before the acknowledgement, the runs of that execution save in turn and none
      of them dropped the step. */
  lemma AckedIsKept(states: seq<Sys>, acts: seq<Action>, j: nat, m: MsgId) returns (k: nat, i: nat, x: ExecId)
    requires IsRun(states, acts) && j < |states|
    requires m in states[j].db.inbox && states[j].db.inbox[m].delivery == ACKED
    ensures 0 < i <= k < j && acts[k].AckMsg? && acts[i - 1] == SaveCp(acts[k].r)
    ensures acts[k].r in states[k].runs && states[k].runs[acts[k].r].x == x
    ensures states[k].runs[acts[k].r].pc == AfterCheckpoint(Some(m))
    ensures SavesInTurn(states, acts, i, j, x) && SaversKeep(states, acts, i, j, x, m) ==> HeldAt(states, j, x, m)
  {
    hide Next, HeldAt, SavesInTurn, SaversKeep;
    k, i := AckedWasCheckpointed(states, acts, j, m);
    x := states[k].runs[acts[k].r].x;
    if SavesInTurn(states, acts, i, j, x) && SaversKeep(states, acts, i, j, x, m) {
      StepStays(states, acts, i, j, x, m);
    }
  }
}
