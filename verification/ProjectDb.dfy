/** The project database as the engine changes it in place: the event log with its projections, the agent
    inbox, the checkpoint manager and the recovery manager. Every method is tied to the transaction
    function of the same name on tables. */
module ProjectDb {
  import opened Wrappers
  import opened Durable

  /** What the recovery of one more execution changes. */
  lemma RecoverNext(db: Db, done: set<ExecId>, x: ExecId)
    requires x in db.execs && x !in done
    ensures var now, next := RecoverSome(db, done), RecoverSome(db, done + {x});
      && x in now.execs && now.execs[x] == db.execs[x] && now.log == next.log == db.log && now.inbox == next.inbox
      && (x in now.cps <==> x in db.cps)
      && (x in db.cps ==> now.cps[x] == db.cps[x] && next.cps == now.cps[x := Recovered(db.cps[x], x, db.log)])
      && (x !in db.cps ==> next.cps == now.cps)
      && next.execs == now.execs[x := db.execs[x].(
           status := Queued, generation := if x in db.cps then Recovered(db.cps[x], x, db.log).generation else 0)]
  {
    hide Recovered;
  }

  /** What a recovery leaves in the tables: crashed executions are queued, with the replayed checkpoint and its
      generation, claimed messages are queued, and everything else is as it was. */
  ghost predicate IsRecovered(db: Db, db': Db, crashed: set<ExecId>) {
    && db'.log == db.log
    && db'.cps.Keys == db.cps.Keys && db'.execs.Keys == db.execs.Keys && db'.inbox.Keys == db.inbox.Keys
    && (forall x | x in db.execs ::
          var generation := if x in db.cps then db'.cps[x].generation else 0;
          db'.execs[x] == if x in crashed then db.execs[x].(status := Queued, generation := generation)
                          else db.execs[x])
    && (forall x | x in db.cps ::
          if x in crashed then IsRecovery(db'.cps[x], db.cps[x], x, db.log) else db'.cps[x] == db.cps[x])
    && (forall m | m in db.inbox ::
          var d := if db.inbox[m].delivery == ACKED then ACKED else QUEUED;
          db'.inbox[m] == db.inbox[m].(delivery := d))
  }

  lemma RecoverIs(db: Db)
    ensures IsRecovered(db, Recover(db), Crashed(db.execs))
  {
    hide Recovered, IsRecovery;
    forall x | x in db.cps
      ensures IsRecovery(Recovered(db.cps[x], x, db.log), db.cps[x], x, db.log)
    {
      RecoveredIsRecovery(db.cps[x], x, db.log);
    }
  }

  class ProjectDb {
    var log: seq<Event>
    var inbox: map<MsgId, InboxRow>
    var execs: map<ExecId, ExecRow>
    var cps: map<ExecId, Checkpoint>

    function Tables(): Db
      reads this
    {
      Db(log, inbox, execs, cps)
    }

    constructor ()
      ensures Tables() == Db([], map[], map[], map[])
    {
      log, inbox, execs, cps := [], map[], map[], map[];
    }

    /** Updates the table that the event belongs to. */
    method ProjectEvent(e: Event, now: nat)
      modifies this
      ensures Tables() == Project(old(Tables()), e, now)
      ensures log == old(log) && cps == old(cps)
      ensures old(inbox).Keys <= inbox.Keys && old(execs).Keys <= execs.Keys
      ensures e.InboxQueued? || e.InboxClaimed? || e.InboxAcked? || inbox == old(inbox)
      ensures e.InboxQueued? || e.InboxClaimed? || e.InboxAcked? ==> execs == old(execs)
      ensures e.ExecutionStarted? ==> e.exec in execs && execs[e.exec].status == Running
      ensures e.ExecutionStarted? && e.exec !in old(execs) ==>
        execs[e.exec].agent == e.agent && execs[e.exec].generation == 1
      ensures e.ExecutionCompleted? && e.exec in execs ==> execs[e.exec] == old(execs)[e.exec].(status := Completed)
      ensures e.ExecutionFailed? && e.exec in execs ==> execs[e.exec] == old(execs)[e.exec].(status := Failed)
      ensures e.StatusChanged? && e.exec in execs ==> execs[e.exec] == old(execs)[e.exec].(status := e.status)
      ensures e.StepCompleted? && e.exec in execs ==> execs[e.exec] == old(execs)[e.exec].(currentStep := e.number)
      ensures e.InboxQueued? ==> inbox == old(inbox)[e.msg := InboxRow(e.agent, now, QUEUED)]
      ensures e.InboxClaimed? && e.msg in inbox && inbox[e.msg].agent == e.agent ==> inbox[e.msg].delivery == CLAIMED
      ensures e.InboxAcked? && e.msg in inbox && inbox[e.msg].agent == e.agent ==> inbox[e.msg].delivery == ACKED
    {
      match e {
        case ExecutionStarted(x, agent) =>
          if x in execs {
            execs := execs[x := execs[x].(status := Running)];
          } else {
            execs := execs[x := ExecRow(agent, 0, Running, 1, 0)];
          }
        case StepCompleted(x, n) =>
          if x in execs {
            execs := execs[x := execs[x].(currentStep := n)];
          }
        case StatusChanged(x, status) => UpdateStatus(x, status);
        case ExecutionCompleted(x) => UpdateStatus(x, Completed);
        case ExecutionFailed(x) => UpdateStatus(x, Failed);
        case InboxQueued(m, agent) => inbox := inbox[m := InboxRow(agent, now, QUEUED)];
        case InboxClaimed(m, agent) => UpdateDelivery(m, agent, CLAIMED);
        case InboxAcked(m, agent) => UpdateDelivery(m, agent, ACKED);
        case _ =>
      }
    }

    method UpdateStatus(x: ExecId, status: Status)
      modifies this
      ensures Tables() == old(Tables()).(execs := SetStatus(old(execs), x, status))
    {
      if x in execs {
        execs := execs[x := execs[x].(status := status)];
      }
    }

    method UpdateDelivery(m: MsgId, agent: AgentId, d: Delivery)
      modifies this
      ensures Tables() == old(Tables()).(inbox := SetDelivery(old(inbox), m, agent, d))
    {
      if m in inbox && inbox[m].agent == agent {
        inbox := inbox[m := inbox[m].(delivery := d)];
      }
    }

    /** Appends to the log and projects in one transaction. The sequence number is the one of the event. */
    method CommitEvent(e: Event, now: nat) returns (ok: bool, seqId: nat)
      modifies this
      ensures ok == !Rejected(old(Tables()), e)
      ensures Tables() == Commit(old(Tables()), e, now)
      ensures ok ==> seqId == |log| && log == old(log) + [e] && log[seqId - 1] == e
    {
      if Rejected(Tables(), e) {
        return false, 0;
      }
      log := log + [e];
      seqId := |log|;
      ProjectEvent(e, now);
      ok := true;
    }

    method QueueMessage(m: MsgId, agent: AgentId, now: nat) returns (ok: bool)
      modifies this
      ensures Tables() == Commit(old(Tables()), InboxQueued(m, agent), now)
      ensures ok == (m !in old(inbox))
      ensures ok ==> inbox == old(inbox)[m := InboxRow(agent, now, QUEUED)]
    {
      var seqId;
      ok, seqId := CommitEvent(InboxQueued(m, agent), now);
    }

    /** Claims an oldest queued message of the agent. There is none exactly when nothing is returned. */
    method ClaimNext(agent: AgentId, now: nat) returns (claimed: Option<MsgId>)
      modifies this
      ensures claimed.None? <==> !HasQueued(old(inbox), agent)
      ensures claimed.None? <==>
        forall m | m in old(inbox) && old(inbox)[m].agent == agent :: old(inbox)[m].delivery != QUEUED
      ensures claimed.None? ==> Tables() == old(Tables())
      ensures claimed.Some? ==>
        && IsOldestQueued(old(inbox), agent, claimed.value)
        && claimed.value in old(inbox) && old(inbox)[claimed.value].agent == agent
        && old(inbox)[claimed.value].delivery == QUEUED
        && (forall m | m in old(inbox) && old(inbox)[m].agent == agent && old(inbox)[m].delivery == QUEUED ::
              old(inbox)[claimed.value].createdAt <= old(inbox)[m].createdAt)
        && Tables() == Commit(old(Tables()), InboxClaimed(claimed.value, agent), now)
        && inbox == old(inbox)[claimed.value := old(inbox)[claimed.value].(delivery := CLAIMED)]
    {
      var queued := set m | m in inbox && inbox[m].agent == agent && inbox[m].delivery == QUEUED;
      if queued == {} {
        assert !HasQueued(inbox, agent) by {
          assert forall m | m in inbox && inbox[m].agent == agent && inbox[m].delivery == QUEUED :: m in queued;
        }
        return None;
      }
      var oldest :| oldest in queued;
      var rest := queued - {oldest};
      while rest != {}
        invariant oldest in queued && rest <= queued
        invariant forall k | k in queued - rest :: inbox[oldest].createdAt <= inbox[k].createdAt
        decreases rest
      {
        var m :| m in rest;
        if inbox[m].createdAt < inbox[oldest].createdAt {
          oldest := m;
        }
        rest := rest - {m};
      }
      assert forall k | k in inbox && inbox[k].agent == agent && inbox[k].delivery == QUEUED :: k in queued - rest;
      var ok, seqId := CommitEvent(InboxClaimed(oldest, agent), now);
      claimed := Some(oldest);
    }

    method AckMessage(m: MsgId, agent: AgentId, now: nat)
      modifies this
      ensures Tables() == Commit(old(Tables()), InboxAcked(m, agent), now)
      ensures log == old(log) + [InboxAcked(m, agent)] && execs == old(execs) && cps == old(cps)
      ensures if m in old(inbox) && old(inbox)[m].agent == agent
        then inbox == old(inbox)[m := old(inbox)[m].(delivery := ACKED)]
        else inbox == old(inbox)
    {
      var ok, seqId := CommitEvent(InboxAcked(m, agent), now);
    }

    method SaveCheckpoint(x: ExecId, st: ExecutionState, lastSeq: nat)
      modifies this
      ensures Tables() == Save(old(Tables()), x, st, lastSeq)
      ensures x in old(execs) ==>
        && x in execs && Load(Tables(), x, execs[x].generation) == State(st)
        && execs[x] == old(execs)[x].(generation := st.total)
      ensures cps - {x} == old(cps) - {x} && execs - {x} == old(execs) - {x} && log == old(log) && inbox == old(inbox)
      ensures x !in old(execs) ==> Tables() == old(Tables())
    {
      if x in execs {
        cps := cps[x := Checkpoint(st.total, st.total, lastSeq, st)];
        execs := execs[x := execs[x].(generation := st.total)];
      }
    }

    method LoadCheckpoint(x: ExecId, expectedGeneration: nat) returns (r: Loaded)
      ensures r == Load(Tables(), x, expectedGeneration)
      ensures r.StaleGeneration? <==> x in cps && cps[x].generation != expectedGeneration
    {
      if x in cps {
        if cps[x].generation != expectedGeneration {
          return StaleGeneration(expectedGeneration, cps[x].generation);
        }
        return State(cps[x].snapshot);
      }
      return NoCheckpoint;
    }

    /** The replay loop of one execution: the new snapshot, the highest sequence number seen. */
    method ReplayEvents(x: ExecId, cp: Checkpoint) returns (state: ExecutionState, highestSeq: nat)
      ensures Recovered(cp, x, log) == Checkpoint(state.total, state.total, highestSeq, state)
      ensures IsRecovery(Checkpoint(state.total, state.total, highestSeq, state), cp, x, log)
    {
      RecoveredIsRecovery(cp, x, log);
      hide IsRecovery;
      state, highestSeq := cp.snapshot, cp.lastSeq;
      var q := cp.lastSeq + 1;
      while q <= |log|
        invariant q > cp.lastSeq && (q <= |log| + 1 || q == cp.lastSeq + 1)
        invariant highestSeq == q - 1
        invariant Replay(state, x, log, q - 1) == Replay(cp.snapshot, x, log, cp.lastSeq)
        decreases |log| - q
      {
        if q > highestSeq {
          highestSeq := q;
        }
        match log[q - 1] {
          case StepCompleted(y, n) =>
            if y == x && n > state.total {
              state := state.(total := n);
            }
          case ToolExecuted(y, _) =>
            if y == x {
              state := Push(state, Replayed(q));
            }
          case MessageSent(c) =>
            if c == state.conv {
              state := Push(state, Replayed(q));
            }
          case PendingApproval(y) =>
            if y == x {
              state := Push(state, Replayed(q));
            }
          case MemoryStored => state := Push(state, Replayed(q));
          case _ =>
        }
        q := q + 1;
      }
    }

    /** One transaction: every execution that was running is brought up to the log and queued again, and
        every claimed message goes back to the queue. */
    method RecoverCrashedExecutions() returns (crashed: set<ExecId>)
      modifies this
      ensures crashed == set x | x in old(execs) && old(execs)[x].status in {Running, Checkpointing}
      ensures Tables() == Recover(old(Tables()))
      ensures IsRecovered(old(Tables()), Tables(), crashed)
    {
      RecoverIs(Tables());
      hide IsRecovered, IsRecovery, Recovered;
      crashed := set x | x in execs && IsCrashed(execs[x]);
      ghost var before := Tables();
      ghost var done: set<ExecId> := {};
      var todo := crashed;
      assert Tables() == RecoverSome(before, {});
      while todo != {}
        invariant done + todo == crashed && done !! todo
        invariant Tables() == RecoverSome(before, done)
        decreases todo
      {
        var x :| x in todo;
        var generation := 0;
        RecoverNext(before, done, x);
        hide RecoverSome;
        if x in cps {
          var state, highestSeq := ReplayEvents(x, cps[x]);
          generation := state.total;
          cps := cps[x := Checkpoint(state.total, state.total, highestSeq, state)];
        }
        execs := execs[x := execs[x].(status := Queued, generation := generation)];
        todo := todo - {x};
        done := done + {x};
      }
      assert done == crashed;
      inbox := map m | m in inbox :: if inbox[m].delivery == CLAIMED then inbox[m].(delivery := QUEUED) else inbox[m];
    }
  }
}
