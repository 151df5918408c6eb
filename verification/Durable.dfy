/** The durable tables of one project database, and what each write transaction does to them.
    A transaction is one atomic step: it is a function from tables to tables. */
module Durable {
  type ExecId = nat
  type AgentId = nat
  type ConvId = nat
  type MsgId = nat

  datatype Status = Pending | Queued | Running | Checkpointing | Completed | Failed | OtherStatus

  datatype Event =
    | ExecutionStarted(exec: ExecId, agent: AgentId)
    | StepCompleted(exec: ExecId, number: nat)
    | ToolExecuted(exec: ExecId, success: bool)
    | StatusChanged(exec: ExecId, status: Status)
    | ExecutionCompleted(exec: ExecId)
    | ExecutionFailed(exec: ExecId)
    | MessageSent(conv: ConvId)
    | MessageCreated(conv: ConvId)
    | PendingApproval(exec: ExecId)
    | MemoryStored
    | InboxQueued(msg: MsgId, agent: AgentId)
    | InboxClaimed(msg: MsgId, agent: AgentId)
    | InboxAcked(msg: MsgId, agent: AgentId)
    | OtherEvent

  datatype Delivery = QUEUED | CLAIMED | ACKED

  datatype InboxRow = InboxRow(agent: AgentId, createdAt: nat, delivery: Delivery)

  datatype ExecRow = ExecRow(agent: AgentId, conv: ConvId, status: Status, generation: nat, currentStep: nat)

  /** What a step of a conversation history records. The position of the recorded log event is not stored
      by the program: the model keeps it so that a step can be told from a second copy of it. */
  datatype StepKind =
    | FromInbox(msg: MsgId)
    | Thought
    | Tool(event: nat)
    | Replayed(event: nat)
    | Summary

  datatype ReActStep = ReActStep(index: nat, kind: StepKind)

  datatype ExecutionState = ExecutionState(conv: ConvId, steps: seq<ReActStep>, total: nat)

  datatype Checkpoint = Checkpoint(generation: nat, stepNumber: nat, lastSeq: nat, snapshot: ExecutionState)

  /** Sequence numbers of the log start at 1: event number q is log[q - 1]. */
  datatype Db = Db(
    log: seq<Event>,
    inbox: map<MsgId, InboxRow>,
    execs: map<ExecId, ExecRow>,
    cps: map<ExecId, Checkpoint>
  )

  // ---------- Appending an event and projecting it ----------

  function SetStatus(execs: map<ExecId, ExecRow>, x: ExecId, status: Status): map<ExecId, ExecRow> {
    if x in execs then execs[x := execs[x].(status := status)] else execs
  }

  function SetDelivery(inbox: map<MsgId, InboxRow>, m: MsgId, agent: AgentId, d: Delivery): map<MsgId, InboxRow> {
    if m in inbox && inbox[m].agent == agent then inbox[m := inbox[m].(delivery := d)] else inbox
  }

  function Project(db: Db, e: Event, now: nat): Db {
    match e
    case ExecutionStarted(x, agent) =>
      if x in db.execs then db.(execs := SetStatus(db.execs, x, Running))
      else db.(execs := db.execs[x := ExecRow(agent, 0, Running, 1, 0)])
    case StepCompleted(x, n) =>
      if x in db.execs then db.(execs := db.execs[x := db.execs[x].(currentStep := n)]) else db
    case StatusChanged(x, status) => db.(execs := SetStatus(db.execs, x, status))
    case ExecutionCompleted(x) => db.(execs := SetStatus(db.execs, x, Completed))
    case ExecutionFailed(x) => db.(execs := SetStatus(db.execs, x, Failed))
    case InboxQueued(m, agent) => db.(inbox := db.inbox[m := InboxRow(agent, now, QUEUED)])
    case InboxClaimed(m, agent) => db.(inbox := SetDelivery(db.inbox, m, agent, CLAIMED))
    case InboxAcked(m, agent) => db.(inbox := SetDelivery(db.inbox, m, agent, ACKED))
    case _ => db
  }

  /** The primary key of the inbox rejects a second message with the same id. */
  predicate Rejected(db: Db, e: Event) {
    e.InboxQueued? && e.msg in db.inbox
  }

  /** Append, then project. A rejected insert rolls the whole transaction back. */
  function Commit(db: Db, e: Event, now: nat): Db {
    if Rejected(db, e) then db else Project(db.(log := db.log + [e]), e, now)
  }

  // ---------- Inbox ----------

  /** The query behind a claim: the oldest queued message of the agent. */
  predicate IsOldestQueued(inbox: map<MsgId, InboxRow>, agent: AgentId, m: MsgId) {
    && m in inbox && inbox[m].agent == agent && inbox[m].delivery == QUEUED
    && forall k | k in inbox && inbox[k].agent == agent && inbox[k].delivery == QUEUED ::
         inbox[m].createdAt <= inbox[k].createdAt
  }

  predicate HasQueued(inbox: map<MsgId, InboxRow>, agent: AgentId) {
    exists m | m in inbox :: inbox[m].agent == agent && inbox[m].delivery == QUEUED
  }

  // ---------- Checkpoints ----------

  /** Saves the checkpoint and, in the same transaction, the generation of the execution row. The foreign
      key rejects a checkpoint of an unknown execution. */
  function Save(db: Db, x: ExecId, st: ExecutionState, lastSeq: nat): Db {
    if x !in db.execs then db
    else db.(cps := db.cps[x := Checkpoint(st.total, st.total, lastSeq, st)],
             execs := db.execs[x := db.execs[x].(generation := st.total)])
  }

  /** The checkpoint written when the loop ends also writes the status. */
  function SaveFinal(db: Db, x: ExecId, st: ExecutionState, lastSeq: nat, failed: bool): Db {
    var saved := Save(db, x, st, lastSeq);
    saved.(execs := SetStatus(saved.execs, x, if failed then Failed else Completed))
  }

  datatype Loaded = StaleGeneration(expected: nat, actual: nat) | NoCheckpoint | State(st: ExecutionState)

  function Load(db: Db, x: ExecId, expected: nat): Loaded {
    if x !in db.cps then NoCheckpoint
    else if db.cps[x].generation != expected then StaleGeneration(expected, db.cps[x].generation)
    else State(db.cps[x].snapshot)
  }

  // ---------- Recovery ----------

  predicate IsCrashed(row: ExecRow) { row.status == Running || row.status == Checkpointing }

  function Crashed(execs: map<ExecId, ExecRow>): set<ExecId> {
    set x | x in execs && IsCrashed(execs[x])
  }

  function Push(st: ExecutionState, kind: StepKind): ExecutionState {
    st.(steps := st.steps + [ReActStep(st.total + 1, kind)], total := st.total + 1)
  }

  /** One event of the log, number q, folded into the snapshot of execution x. */
  function Fold(st: ExecutionState, x: ExecId, e: Event, q: nat): ExecutionState {
    match e
    case StepCompleted(y, n) => if y == x && n > st.total then st.(total := n) else st
    case ToolExecuted(y, _) => if y == x then Push(st, Replayed(q)) else st
    case MessageSent(c) => if c == st.conv then Push(st, Replayed(q)) else st
    case PendingApproval(y) => if y == x then Push(st, Replayed(q)) else st
    case MemoryStored => Push(st, Replayed(q))
    case _ => st
  }

  /** The events after number `from`, folded in order. */
  function Replay(st: ExecutionState, x: ExecId, log: seq<Event>, from: nat): ExecutionState
    decreases |log| - from
  {
    if from >= |log| then st else Replay(Fold(st, x, log[from], from + 1), x, log, from + 1)
  }

  function Recovered(cp: Checkpoint, x: ExecId, log: seq<Event>): Checkpoint {
    var st := Replay(cp.snapshot, x, log, cp.lastSeq);
    Checkpoint(st.total, st.total, if |log| > cp.lastSeq then |log| else cp.lastSeq, st)
  }

  /** Recovery of the given crashed executions. */
  function RecoverSome(db: Db, xs: set<ExecId>): Db {
    var cps := map x | x in db.cps :: if x in xs then Recovered(db.cps[x], x, db.log) else db.cps[x];
    db.(cps := cps,
        execs := map x | x in db.execs ::
          if x in xs then db.execs[x].(status := Queued, generation := if x in cps then cps[x].generation else 0)
          else db.execs[x])
  }

  function Requeue(inbox: map<MsgId, InboxRow>): map<MsgId, InboxRow> {
    map m | m in inbox :: if inbox[m].delivery == CLAIMED then inbox[m].(delivery := QUEUED) else inbox[m]
  }

  /** The recovery transaction of one project. */
  function Recover(db: Db): Db {
    var db' := RecoverSome(db, Crashed(db.execs));
    db'.(inbox := Requeue(db.inbox))
  }

  // ---------- The shape of a history ----------

  function EventOf(s: ReActStep): nat {
    match s.kind
    case Tool(q) => q
    case Replayed(q) => q
    case _ => 0
  }

  /** Step numbers other than those of summaries increase and stay within the total. No two steps record
      the same log event, and none records an event after number `bound`. */
  ghost predicate InOrder(st: ExecutionState, bound: nat) {
    && (forall i | 0 <= i < |st.steps| :: !st.steps[i].kind.Summary? ==> st.steps[i].index <= st.total)
    && (forall i, j | 0 <= i < j < |st.steps| ::
          !st.steps[i].kind.Summary? && !st.steps[j].kind.Summary? ==> st.steps[i].index < st.steps[j].index)
    && (forall i | 0 <= i < |st.steps| :: EventOf(st.steps[i]) <= bound)
    && (forall i, j | 0 <= i < j < |st.steps| ::
          EventOf(st.steps[i]) != 0 && EventOf(st.steps[j]) != 0 ==> EventOf(st.steps[i]) < EventOf(st.steps[j]))
  }

  lemma PushInOrder(st: ExecutionState, kind: StepKind, bound: nat, bound': nat)
    requires InOrder(st, bound) && bound <= bound' && !kind.Summary?
    requires var q := EventOf(ReActStep(0, kind)); q == 0 || bound < q <= bound'
    ensures InOrder(Push(st, kind), bound')
  {
  }

  lemma StaysInOrder(st: ExecutionState, total: nat, bound: nat, bound': nat)
    requires InOrder(st, bound) && bound <= bound' && st.total <= total
    ensures InOrder(st.(total := total), bound')
  {
  }

  lemma FoldInOrder(st: ExecutionState, x: ExecId, e: Event, q: nat)
    requires q > 0 && InOrder(st, q - 1)
    ensures InOrder(Fold(st, x, e, q), q)
    ensures Fold(st, x, e, q).total >= st.total && Fold(st, x, e, q).conv == st.conv
    ensures e.StepCompleted? && e.exec == x ==> Fold(st, x, e, q).total >= e.number
    ensures st.steps <= Fold(st, x, e, q).steps
  {
    hide InOrder;
    PushInOrder(st, Replayed(q), q - 1, q);
    StaysInOrder(st, st.total, q - 1, q);
    if e.StepCompleted? && e.number > st.total {
      StaysInOrder(st, e.number, q - 1, q);
    }
  }

  /** The events that recovery turns into new steps. */
  predicate AddsStep(e: Event, x: ExecId, conv: ConvId) {
    match e
    case ToolExecuted(y, _) => y == x
    case PendingApproval(y) => y == x
    case MessageSent(c) => c == conv
    case MemoryStored => true
    case _ => false
  }

  /** The numbers of the events after `from` that recovery turns into steps, in order. */
  function Counted(log: seq<Event>, from: nat, x: ExecId, conv: ConvId): seq<nat>
    decreases |log| - from
  {
    if from >= |log| then []
    else (if AddsStep(log[from], x, conv) then [from + 1] else []) + Counted(log, from + 1, x, conv)
  }

  /** The step number that event q completes for execution x, or 0. */
  function StepNumber(log: seq<Event>, q: nat, x: ExecId): nat
    requires 0 < q <= |log|
  {
    var e := log[q - 1];
    if e.StepCompleted? && e.exec == x then e.number else 0
  }

  function Kinds(steps: seq<ReActStep>): seq<StepKind> { seq(|steps|, i requires 0 <= i < |steps| => steps[i].kind) }

  function ReplayedKinds(qs: seq<nat>): seq<StepKind> { seq(|qs|, i requires 0 <= i < |qs| => Replayed(qs[i])) }

  /** Replay keeps the steps of the snapshot and appends exactly one for every later event that counts,
      in the order of the log. */
  lemma {:induction false} ReplayAppends(st: ExecutionState, x: ExecId, log: seq<Event>, from: nat)
    ensures var r := Replay(st, x, log, from);
      && st.steps <= r.steps && r.conv == st.conv
      && Kinds(r.steps) == Kinds(st.steps) + ReplayedKinds(Counted(log, from, x, st.conv))
    decreases |log| - from
  {
    if from < |log| {
      var st' := Fold(st, x, log[from], from + 1);
      ReplayAppends(st', x, log, from + 1);
      var rest := Counted(log, from + 1, x, st.conv);
      if AddsStep(log[from], x, st.conv) {
        assert st' == Push(st, Replayed(from + 1));
        assert Kinds(st'.steps) == Kinds(st.steps) + [Replayed(from + 1)];
        assert ReplayedKinds([from + 1] + rest) == [Replayed(from + 1)] + ReplayedKinds(rest);
      } else {
        assert st'.steps == st.steps;
        assert [] + rest == rest;
      }
    }
  }

  lemma {:induction false} ReplayInOrder(st: ExecutionState, x: ExecId, log: seq<Event>, from: nat)
    requires InOrder(st, from) && from <= |log|
    ensures InOrder(Replay(st, x, log, from), |log|)
    decreases |log| - from
  {
    if from < |log| {
      FoldInOrder(st, x, log[from], from + 1);
      ReplayInOrder(Fold(st, x, log[from], from + 1), x, log, from + 1);
    }
  }

  /** How many of the events after number `from` recovery turns into steps. */
  function Added(log: seq<Event>, from: nat, x: ExecId, conv: ConvId): nat { |Counted(log, from, x, conv)| }

  /** The total after a replay: one step for each counted event on top of the old total, or on top of a step number
      that the log completes, whichever of these is largest. */
  ghost predicate IsReplayTotal(total: nat, old': nat, log: seq<Event>, from: nat, x: ExecId, conv: ConvId) {
    && old' + Added(log, from, x, conv) <= total
    && (forall q | from < q <= |log| && StepNumber(log, q, x) > 0 ::
          StepNumber(log, q, x) + Added(log, q, x, conv) <= total)
    && (total == old' + Added(log, from, x, conv)
        || exists q | from < q <= |log| ::
             StepNumber(log, q, x) > 0 && total == StepNumber(log, q, x) + Added(log, q, x, conv))
  }

  lemma {:induction false} ReplayTotal(st: ExecutionState, x: ExecId, log: seq<Event>, from: nat)
    requires from <= |log|
    ensures IsReplayTotal(Replay(st, x, log, from).total, st.total, log, from, x, st.conv)
    decreases |log| - from
  {
    if from < |log| {
      var st' := Fold(st, x, log[from], from + 1);
      ReplayTotal(st', x, log, from + 1);
      TotalStep(st, x, log, from, Replay(st, x, log, from).total);
    }
  }

  /** One event more at the front of the replayed ones. */
  lemma TotalStep(st: ExecutionState, x: ExecId, log: seq<Event>, from: nat, total: nat)
    requires from < |log|
    requires var st' := Fold(st, x, log[from], from + 1);
      IsReplayTotal(total, st'.total, log, from + 1, x, st'.conv)
    ensures IsReplayTotal(total, st.total, log, from, x, st.conv)
  {
    var e := log[from];
    var st' := Fold(st, x, e, from + 1);
    assert Added(log, from, x, st.conv) == Added(log, from + 1, x, st.conv) + if AddsStep(e, x, st.conv) then 1 else 0;
    hide Counted;
    if st'.total == StepNumber(log, from + 1, x) && st'.total > st.total && !AddsStep(e, x, st.conv) {
      assert total == st'.total + Added(log, from + 1, x, st.conv) ==>
        total == StepNumber(log, from + 1, x) + Added(log, from + 1, x, st.conv);
    }
  }

  lemma TotalCovers(total: nat, old': nat, log: seq<Event>, from: nat, x: ExecId, conv: ConvId)
    requires IsReplayTotal(total, old', log, from, x, conv)
    ensures old' <= total && forall q | from < q <= |log| :: StepNumber(log, q, x) <= total
  {
  }

  /** What a replay makes of a checkpoint: the old steps and one for each counted later event, the total that these
      and the completed step numbers make, everywhere the same total, and the end of the log. */
  ghost predicate IsRecovery(cp': Checkpoint, cp: Checkpoint, x: ExecId, log: seq<Event>) {
    var st, st', conv := cp.snapshot, cp'.snapshot, cp.snapshot.conv;
    && cp'.generation == cp'.stepNumber == st'.total && st'.conv == conv
    && cp'.lastSeq == (if cp.lastSeq < |log| then |log| else cp.lastSeq)
    && st.steps <= st'.steps
    && Kinds(st'.steps) == Kinds(st.steps) + ReplayedKinds(Counted(log, cp.lastSeq, x, conv))
    && (cp.lastSeq <= |log| ==> IsReplayTotal(st'.total, st.total, log, cp.lastSeq, x, conv))
  }

  lemma RecoveredIsRecovery(cp: Checkpoint, x: ExecId, log: seq<Event>)
    ensures IsRecovery(Recovered(cp, x, log), cp, x, log)
  {
    hide Replay, Counted, IsReplayTotal;
    ReplayAppends(cp.snapshot, x, log, cp.lastSeq);
    if cp.lastSeq <= |log| {
      ReplayTotal(cp.snapshot, x, log, cp.lastSeq);
    }
  }
}
