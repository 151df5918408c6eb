/** Concrete runs of the execution protocol in which the generation of an execution falls. */
module RunTraces {
  import opened Wrappers
  import opened Durable
  import opened RunProtocol
  import opened RunTheorems

  /** One more step of a run. */
  lemma Extend(states: seq<Sys>, acts: seq<Action>, a: Action) returns (states': seq<Sys>, acts': seq<Action>)
    requires IsRun(states, acts) && |states| == |acts| + 1 && Enabled(states[|acts|], a)
    ensures states' == states + [Step(states[|acts|], a)] && acts' == acts + [a] && IsRun(states', acts')
    ensures |states'| == |acts'| + 1
  {
    states', acts' := states + [Step(states[|acts|], a)], acts + [a];
    forall i | 0 <= i < |acts'|
      ensures Next(states'[i], acts'[i], states'[i + 1])
    {
      if i < |acts| {
        assert Next(states[i], acts[i], states[i + 1]);
      }
    }
  }

  lemma FirstExecution(generation: nat) returns (states: seq<Sys>, acts: seq<Action>)
    requires generation <= 1
    ensures IsRun(states, acts) && |states| == |acts| + 1 && |acts| == 2
    ensures states[2] == Sys(Db([], map[], map[0 := ExecRow(0, 0, Pending, generation, 0)], map[]), map[], true)
  {
    var empty := Db([], map[], map[], map[]);
    assert Recover(empty) == empty;
    states, acts := [Sys(empty, map[], false)], [];
    states, acts := Extend(states, acts, RecoverAll);
    states, acts := Extend(states, acts, InsertExec(0, 0, 0, generation));
  }

  /** A run of the only execution, whose row has this generation, with nothing in the inbox. */
  ghost predicate Lone(s: Sys, pc: Pc, generation: nat, status: Status) {
    && s.up && s.db.inbox == map[] && s.db.cps == map[]
    && 0 in s.db.execs && s.db.execs[0].generation == generation && s.db.execs[0].status == status
    && s.db.execs[0].agent == 0
    && 0 in s.runs && s.runs[0].x == 0 && s.runs[0].agent == 0 && s.runs[0].pc == pc && s.runs[0].st.total == 0
  }

  lemma LoneLoad(s: Sys)
    requires s == Sys(Db([], map[], map[0 := ExecRow(0, 0, Pending, 1, 0)], map[]), map[], true)
    ensures Enabled(s, Fetch(0, 0))
    ensures var s' := Step(s, Fetch(0, 0));
      Enabled(s', LoadState(0)) && Lone(Step(s', LoadState(0)), Ready, 1, Pending)
  {
  }

  lemma LoneStart(s: Sys)
    requires Lone(s, Ready, 1, Pending)
    ensures Enabled(s, EmitStarted(0, 0)) && Lone(Step(s, EmitStarted(0, 0)), LoopTop, 1, Running)
  {
  }

  lemma LoneSave(s: Sys)
    requires Lone(s, AfterClaim(None), 1, Running)
    ensures Enabled(s, SaveCp(0)) && 0 in Step(s, SaveCp(0)).db.execs && Step(s, SaveCp(0)).db.execs[0].generation == 0
  {
  }

  lemma ToLoopTop() returns (states: seq<Sys>, acts: seq<Action>)
    ensures IsRun(states, acts) && |states| == |acts| + 1 && |acts| == 5 && Lone(states[5], LoopTop, 1, Running)
  {
    hide IsRun;
    states, acts := FirstExecution(1);
    hide Enabled, Step, Lone;
    LoneLoad(states[2]);
    states, acts := Extend(states, acts, Fetch(0, 0));
    states, acts := Extend(states, acts, LoadState(0));
    LoneStart(states[4]);
    states, acts := Extend(states, acts, EmitStarted(0, 0));
  }

  /** A run of the program in which the generation falls at a first save: an execution inserted with generation 1
      whose agent has no message waiting. */
  lemma GenerationCanFall() returns (states: seq<Sys>, acts: seq<Action>)
    ensures IsRun(states, acts) && |states| == |acts| + 1 && |acts| == 7
    ensures 0 in states[6].db.execs && states[6].db.execs[0].generation == 1
    ensures 0 in states[7].db.execs && states[7].db.execs[0].generation == 0
  {
    hide IsRun;
    states, acts := ToLoopTop();
    states, acts := Extend(states, acts, ClaimNone(0));
    assert Lone(states[6], AfterClaim(None), 1, Running);
    hide Enabled, Step;
    LoneSave(states[6]);
    states, acts := Extend(states, acts, SaveCp(0));
  }

  /** A run in which it falls at a recovery: the same execution crashes before its first checkpoint. */
  lemma GenerationCanFallAtRecovery() returns (states: seq<Sys>, acts: seq<Action>)
    ensures IsRun(states, acts) && |states| == |acts| + 1 && |acts| == 7
    ensures 0 in states[6].db.execs && states[6].db.execs[0].generation == 1
    ensures 0 in states[7].db.execs && states[7].db.execs[0].generation == 0
  {
    hide IsRun;
    states, acts := ToLoopTop();
    states, acts := Extend(states, acts, Crash);
    assert !states[6].up && states[6].db == states[5].db;
    states, acts := Extend(states, acts, RecoverAll);
  }

  /** Two runs of the only execution, and one message for its agent. */
  ghost predicate Pair(s: Sys, a: Run, b: Run, d: Delivery, n: nat) {
    && s.up && s.runs == map[0 := a, 1 := b] && a.x == 0 && b.x == 0 && a.agent == 0 && b.agent == 0
    && s.db.inbox == map[0 := InboxRow(0, 0, d)]
    && 0 in s.db.execs && s.db.execs[0].agent == 0
    && |s.db.log| == n
  }

  lemma PairStart(s: Sys, a: Run, b: Run, d: Delivery, n: nat, r: RunId)
    requires Pair(s, a, b, d, n) && r <= 1 && s.runs[r].pc == Ready
    ensures Enabled(s, EmitStarted(r, 0))
    ensures var s' := Step(s, EmitStarted(r, 0));
      if r == 0 then Pair(s', a.(seqId := n + 1, pc := LoopTop), b, d, n + 1)
      else Pair(s', a, b.(seqId := n + 1, pc := LoopTop), d, n + 1)
  {
  }

  lemma PairClaim(s: Sys, a: Run, b: Run, n: nat)
    requires Pair(s, a, b, QUEUED, n) && a.pc == LoopTop
    ensures Enabled(s, ClaimSome(0, 0, 0))
    ensures var a' := a.(st := Push(a.st, FromInbox(0)), pc := AfterClaim(Some(0)));
      Pair(Step(s, ClaimSome(0, 0, 0)), a', b, CLAIMED, n + 1)
  {
  }

  lemma PairNone(s: Sys, a: Run, b: Run, d: Delivery, n: nat, r: RunId)
    requires Pair(s, a, b, d, n) && d != QUEUED && r <= 1 && s.runs[r].pc == LoopTop
    ensures Enabled(s, ClaimNone(r)) && Step(s, ClaimNone(r)).db == s.db
    ensures var s' := Step(s, ClaimNone(r));
      if r == 0 then Pair(s', a.(pc := AfterClaim(None)), b, d, n) else Pair(s', a, b.(pc := AfterClaim(None)), d, n)
  {
  }

  lemma PairSave(s: Sys, a: Run, b: Run, d: Delivery, n: nat, r: RunId)
    requires Pair(s, a, b, d, n) && r <= 1 && s.runs[r].pc.AfterClaim?
    ensures Enabled(s, SaveCp(r))
    ensures var s', run := Step(s, SaveCp(r)), s.runs[r];
      && (if r == 0 then Pair(s', a.(pc := AfterCheckpoint(a.pc.claimed)), b, d, n)
          else Pair(s', a, b.(pc := AfterCheckpoint(b.pc.claimed)), d, n))
      && 0 in s'.db.cps && s'.db.cps[0].lastSeq == run.seqId
      && s'.db.cps[0].generation == s'.db.execs[0].generation == run.st.total
      && s'.db.cps[0].snapshot == run.st
  {
  }

  lemma PairAck(s: Sys, a: Run, b: Run, n: nat)
    requires Pair(s, a, b, CLAIMED, n) && a.pc == AfterCheckpoint(Some(0))
    ensures Enabled(s, AckMsg(0, 0)) && Pair(Step(s, AckMsg(0, 0)), a.(pc := Thinking), b, ACKED, n + 1)
  {
  }

  lemma PairCommit(s: Sys, a: Run, b: Run, d: Delivery, n: nat)
    requires Pair(s, a, b, d, n) && a.pc == Thinking && a.st.total < 5
    ensures var step := CommitStep(0, false, true, false, 0);
      Enabled(s, step) && Pair(Step(s, step), a.(st := Push(a.st, Thought), seqId := n + 1, pc := LoopTop), b, d, n + 1)
  {
  }

  lemma PairFetched() returns (states: seq<Sys>, acts: seq<Action>)
    ensures IsRun(states, acts) && |states| == |acts| + 1 && |acts| == 5
    ensures var fetched := Run(0, 0, NewState(0), 0, Fetched(0)); Pair(states[5], fetched, fetched, QUEUED, 1)
    ensures states[5].db.cps == map[]
  {
    hide IsRun;
    states, acts := FirstExecution(0);
    states, acts := Extend(states, acts, QueueMsg(0, 0, 0));
    states, acts := Extend(states, acts, Fetch(0, 0));
    states, acts := Extend(states, acts, Fetch(1, 0));
    var fetched := Run(0, 0, NewState(0), 0, Fetched(0));
    assert states[5].runs == map[0 := fetched, 1 := fetched];
  }

  lemma PairLoad(s: Sys, a: Run, b: Run, d: Delivery, n: nat, r: RunId)
    requires Pair(s, a, b, d, n) && s.db.cps == map[] && r <= 1 && s.runs[r].pc.Fetched?
    ensures Enabled(s, LoadState(r)) && Step(s, LoadState(r)).db == s.db
    ensures var s' := Step(s, LoadState(r));
      if r == 0 then Pair(s', a.(pc := Ready), b, d, n) else Pair(s', a, b.(pc := Ready), d, n)
  {
  }

  /** A run in which a load meets a stale generation: two runs of one execution are fetched, the first one claims a
      message and saves, and then the second one loads. */
  lemma LoadCanBeStale() returns (states: seq<Sys>, acts: seq<Action>)
    ensures IsRun(states, acts) && |states| == |acts| + 1 && |acts| == 10 && acts[9] == LoadState(1)
    ensures 1 in states[9].runs && states[9].runs[1].x == 0 && states[9].runs[1].pc == Fetched(0)
    ensures Load(states[9].db, 0, 0) == StaleGeneration(0, 1)
    ensures 1 !in states[10].runs
  {
    hide IsRun, Enabled, Step, Pair;
    states, acts := PairFetched();
    var b := Run(0, 0, NewState(0), 0, Fetched(0));
    var a := b;
    PairRuns(states[5], a, b, QUEUED, 1);
    PairLoad(states[5], a, b, QUEUED, 1, 0);
    states, acts := Extend(states, acts, LoadState(0));
    a := a.(pc := Ready);
    PairRuns(states[6], a, b, QUEUED, 1);
    PairStart(states[6], a, b, QUEUED, 1, 0);
    states, acts := Extend(states, acts, EmitStarted(0, 0));
    a := a.(seqId := 2, pc := LoopTop);
    PairClaim(states[7], a, b, 2);
    states, acts := Extend(states, acts, ClaimSome(0, 0, 0));
    a := a.(st := Push(a.st, FromInbox(0)), pc := AfterClaim(Some(0)));
    PairRuns(states[8], a, b, CLAIMED, 3);
    PairSave(states[8], a, b, CLAIMED, 3, 0);
    states, acts := Extend(states, acts, SaveCp(0));
    PairRuns(states[9], a.(pc := AfterCheckpoint(Some(0))), b, CLAIMED, 3);
    StaleLoad(states[9], b);
    states, acts := Extend(states, acts, LoadState(1));
  }

  lemma StaleLoad(s: Sys, b: Run)
    requires s.up && 1 in s.runs && s.runs[1] == b && b.x == 0 && b.pc == Fetched(0)
    requires 0 in s.db.cps && s.db.cps[0].generation == 1
    ensures Enabled(s, LoadState(1)) && 1 !in Step(s, LoadState(1)).runs
    ensures Load(s.db, 0, 0) == StaleGeneration(0, 1)
  {
  }

  lemma PairReady() returns (states: seq<Sys>, acts: seq<Action>)
    ensures IsRun(states, acts) && |states| == |acts| + 1 && |acts| == 7
    ensures Pair(states[7], Run(0, 0, NewState(0), 0, Ready), Run(0, 0, NewState(0), 0, Ready), QUEUED, 1)
  {
    hide IsRun, Enabled, Step, Pair;
    states, acts := PairFetched();
    var fetched := Run(0, 0, NewState(0), 0, Fetched(0));
    PairRuns(states[5], fetched, fetched, QUEUED, 1);
    PairLoad(states[5], fetched, fetched, QUEUED, 1, 0);
    states, acts := Extend(states, acts, LoadState(0));
    PairRuns(states[6], fetched.(pc := Ready), fetched, QUEUED, 1);
    PairLoad(states[6], fetched.(pc := Ready), fetched, QUEUED, 1, 1);
    states, acts := Extend(states, acts, LoadState(1));
  }

  /** A run with two runs of one execution, both started before its first checkpoint. The first one handles a
      message and saves generation 2. The second one finds nothing queued and saves its empty history over that:
      generation and sequence number of the checkpoint fall, and the step of the acknowledged message is gone. */
  lemma GenerationCanFallBesideAnotherRun() returns (states: seq<Sys>, acts: seq<Action>)
    ensures IsRun(states, acts) && |states| == |acts| + 1 && |acts| == 17
    ensures 0 in states[16].db.execs && states[16].db.execs[0].generation == 2
    ensures 0 in states[16].db.cps && states[16].db.cps[0].generation == 2
    ensures 0 in states[17].db.execs && states[17].db.execs[0].generation == 0
    ensures 0 in states[17].db.cps && states[17].db.cps[0].lastSeq < states[16].db.cps[0].lastSeq
    ensures 0 in states[17].db.inbox && states[17].db.inbox[0].delivery == ACKED
    ensures InCheckpoint(states[16].db, 0, 0) && !InCheckpoint(states[17].db, 0, 0)
  {
    hide IsRun, Enabled, Step, Pair;
    states, acts := PairReady();
    var a, b := Run(0, 0, NewState(0), 0, Ready), Run(0, 0, NewState(0), 0, Ready);
    PairRuns(states[7], a, b, QUEUED, 1);
    PairStart(states[7], a, b, QUEUED, 1, 0);
    states, acts := Extend(states, acts, EmitStarted(0, 0));
    a := a.(seqId := 2, pc := LoopTop);
    PairRuns(states[8], a, b, QUEUED, 2);
    PairStart(states[8], a, b, QUEUED, 2, 1);
    states, acts := Extend(states, acts, EmitStarted(1, 0));
    b := b.(seqId := 3, pc := LoopTop);
    PairClaim(states[9], a, b, 3);
    states, acts := Extend(states, acts, ClaimSome(0, 0, 0));
    a := a.(st := Push(a.st, FromInbox(0)), pc := AfterClaim(Some(0)));
    PairRuns(states[10], a, b, CLAIMED, 4);
    PairSave(states[10], a, b, CLAIMED, 4, 0);
    states, acts := Extend(states, acts, SaveCp(0));
    a := a.(pc := AfterCheckpoint(Some(0)));
    PairAck(states[11], a, b, 4);
    states, acts := Extend(states, acts, AckMsg(0, 0));
    a := a.(pc := Thinking);
    PairCommit(states[12], a, b, ACKED, 5);
    states, acts := Extend(states, acts, CommitStep(0, false, true, false, 0));
    a := a.(st := Push(a.st, Thought), seqId := 6, pc := LoopTop);
    assert a.st.steps[0].kind == FromInbox(0);
    states, acts := LastSaves(states, acts, a, b);
  }

  lemma PairRuns(s: Sys, a: Run, b: Run, d: Delivery, n: nat)
    requires Pair(s, a, b, d, n)
    ensures 0 in s.runs && s.runs[0] == a && 1 in s.runs && s.runs[1] == b && 0 in s.db.execs
    ensures 0 in s.db.inbox && s.db.inbox[0].delivery == d
  {
  }

  lemma LastSaves(before: seq<Sys>, done: seq<Action>, a: Run, b: Run) returns (states: seq<Sys>, acts: seq<Action>)
    requires IsRun(before, done) && |before| == |done| + 1 && |done| == 13 && Pair(before[13], a, b, ACKED, 6)
    requires a.pc == LoopTop && b.pc == LoopTop && a.st.total == 2 && b.st.total == 0 && b.seqId < a.seqId
    requires HasInboxStep(a.st, 0) && b.st.steps == []
    ensures IsRun(states, acts) && |states| == |acts| + 1 && |acts| == 17
    ensures 0 in states[16].db.execs && states[16].db.execs[0].generation == 2
    ensures 0 in states[16].db.cps && states[16].db.cps[0].generation == 2
    ensures 0 in states[17].db.execs && states[17].db.execs[0].generation == 0
    ensures 0 in states[17].db.cps && states[17].db.cps[0].lastSeq < states[16].db.cps[0].lastSeq
    ensures 0 in states[17].db.inbox && states[17].db.inbox[0].delivery == ACKED
    ensures InCheckpoint(states[16].db, 0, 0) && !InCheckpoint(states[17].db, 0, 0)
  {
    hide IsRun, Enabled, Step, Pair;
    var a', b' := a.(pc := AfterClaim(None)), b.(pc := AfterClaim(None));
    PairRuns(before[13], a, b, ACKED, 6);
    PairNone(before[13], a, b, ACKED, 6, 0);
    states, acts := Extend(before, done, ClaimNone(0));
    PairRuns(states[14], a', b, ACKED, 6);
    PairSave(states[14], a', b, ACKED, 6, 0);
    states, acts := Extend(states, acts, SaveCp(0));
    var saved := a'.(pc := AfterCheckpoint(None));
    PairRuns(states[15], saved, b, ACKED, 6);
    PairNone(states[15], saved, b, ACKED, 6, 1);
    states, acts := Extend(states, acts, ClaimNone(1));
    PairRuns(states[16], saved, b', ACKED, 6);
    PairSave(states[16], saved, b', ACKED, 6, 1);
    states, acts := Extend(states, acts, SaveCp(1));
    PairRuns(states[17], saved, b'.(pc := AfterCheckpoint(None)), ACKED, 6);
  }
}
