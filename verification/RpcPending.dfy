/** Matching of JSON-RPC responses to calls. Calls of one client interleave with each other, with the reader
    of the response stream, with timeouts, and with callers that give up a call in progress. */
module RpcPending {
  import opened Wrappers

  type Id = nat

  datatype Response = Response(id: Option<Id>, body: string)

  /** How a call ends. A streamed response is named by its position in the stream. */
  datatype Outcome = Streamed(k: nat) | Direct(body: string) | SenderGone | TimedOut | SendFailed

  datatype Phase =
    | Numbered                             // has its id, not yet in the pending table
    | Sending
    | Waiting
    | Leaving(result: Outcome)             // knows how it ends, about to clear its entry
    | Returned(outcome: Outcome)
    | Dropped(registered: bool)            // its caller was cancelled: it clears nothing any more

  /** What the reader put into the one-shot channel of a call. */
  datatype Channel = Open | Sent(k: nat)

  /** `since` is the length of the stream when the call entered the pending table. */
  datatype Call = Call(id: Id, phase: Phase, chan: Channel, since: nat)

  /** The pending table and the senders that the reader took out of it name calls by their position. */
  datatype State = State(nextId: Id, pending: map<Id, nat>, calls: seq<Call>, stream: seq<Response>,
                         taken: map<nat, nat>)

  // ---------- Steps ----------

  datatype Action =
    | Begin
    | Register(c: nat)
    | Sent(c: nat)
    | AnsweredDirectly(c: nat, body: string)
    | FailedToSend(c: nat)
    | Receive(response: Response)          // the reader takes the sender out of the table
    | Deliver(k: nat)                      // and sends the response that it received as number k
    | TakeAnswer(c: nat)
    | TimeOut(c: nat)
    | FindSenderGone(c: nat)
    | Leave(c: nat)
    | Drop(c: nat)

  predicate Taken(taken: map<nat, nat>, i: nat) { i in taken.Values }

  predicate Enabled(s: State, a: Action) {
    match a
    case Begin => true
    case Receive(_) => true
    case Deliver(k) => k in s.taken && s.taken[k] < |s.calls|
    case Register(c) => c < |s.calls| && s.calls[c].phase.Numbered?
    case Sent(c) => c < |s.calls| && s.calls[c].phase.Sending?
    case AnsweredDirectly(c, _) => c < |s.calls| && s.calls[c].phase.Sending?
    case FailedToSend(c) => c < |s.calls| && s.calls[c].phase.Sending?
    case TakeAnswer(c) => c < |s.calls| && s.calls[c].phase.Waiting? && s.calls[c].chan.Sent?
    case TimeOut(c) => c < |s.calls| && s.calls[c].phase.Waiting?
    case FindSenderGone(c) =>
      c < |s.calls| && s.calls[c].phase.Waiting? && s.calls[c].chan.Open?
      && c !in s.pending.Values && !Taken(s.taken, c)
    case Leave(c) => c < |s.calls| && s.calls[c].phase.Leaving?
    case Drop(c) =>
      c < |s.calls| && (s.calls[c].phase.Numbered? || s.calls[c].phase.Sending? || s.calls[c].phase.Waiting?)
  }

  function To(s: State, i: nat, phase: Phase): State
    requires i < |s.calls|
  {
    s.(calls := s.calls[i := s.calls[i].(phase := phase)])
  }

  function Step(s: State, a: Action): State
    requires Enabled(s, a)
  {
    match a
    case Begin => s.(nextId := s.nextId + 1, calls := s.calls + [Call(s.nextId, Numbered, Open, |s.stream|)])
    case Register(c) =>
      var call := s.calls[c].(phase := Sending, since := |s.stream|);
      s.(calls := s.calls[c := call], pending := s.pending[call.id := c])
    case Sent(c) => To(s, c, Waiting)
    case AnsweredDirectly(c, body) => To(s, c, Leaving(Direct(body)))
    case FailedToSend(c) => To(s, c, Leaving(SendFailed))
    case Receive(r) =>
      var s' := s.(stream := s.stream + [r]);
      if r.id.Some? && r.id.value in s.pending then
        s'.(pending := s.pending - {r.id.value}, taken := s.taken[|s.stream| := s.pending[r.id.value]])
      else s'
    case Deliver(k) =>
      var i := s.taken[k];
      var s' := s.(taken := s.taken - {k});
      if s.calls[i].phase.Sending? || s.calls[i].phase.Waiting? then
        s'.(calls := s.calls[i := s.calls[i].(chan := Channel.Sent(k))])
      else s'
    case TakeAnswer(c) => To(s, c, Returned(Streamed(s.calls[c].chan.k)))
    case TimeOut(c) => To(s, c, Leaving(TimedOut))
    case FindSenderGone(c) => To(s, c, Leaving(SenderGone))
    case Leave(c) => To(s, c, Returned(s.calls[c].phase.result)).(pending := s.pending - {s.calls[c].id})
    case Drop(c) => To(s, c, Dropped(!s.calls[c].phase.Numbered?))
  }

  ghost predicate IsRun(states: seq<State>, acts: seq<Action>) {
    && |states| == |acts| + 1
    && states[0] == State(1, map[], [], [], map[])
    && forall i | 0 <= i < |acts| :: Enabled(states[i], acts[i]) && states[i + 1] == Step(states[i], acts[i])
  }

  // ---------- The invariant ----------

  /** No response with this id came between two positions. */
  predicate NoneBetween(stream: seq<Response>, id: Id, since: nat, k: nat) {
    forall j | since <= j < k && j < |stream| :: stream[j].id != Some(id)
  }

  /** Response number k is the first with the id of the call that came after the call was registered. */
  predicate Answers(stream: seq<Response>, id: Id, since: nat, k: nat) {
    since <= k < |stream| && stream[k].id == Some(id) && NoneBetween(stream, id, since, k)
  }

  /** The call entered the pending table, and did not return. */
  predicate IsOpen(c: Call) {
    !c.phase.Numbered? && !c.phase.Returned? && c.phase != Dropped(false)
  }

  predicate CallOk(s: State, i: nat)
    requires i < |s.calls|
  {
    var c := s.calls[i];
    && c.id == i + 1
    && c.since <= |s.stream|
    && (c.id in s.pending ==>
          s.pending[c.id] == i && c.chan.Open? && !Taken(s.taken, i) && NoneBetween(s.stream, c.id, c.since, |s.stream|)
          && IsOpen(c))
    && (IsOpen(c) && NoneBetween(s.stream, c.id, c.since, |s.stream|) ==> c.id in s.pending)
    && (c.phase.Numbered? ==> c.chan.Open? && !Taken(s.taken, i))
    && (c.chan.Sent? ==> Answers(s.stream, c.id, c.since, c.chan.k) && !Taken(s.taken, i))
    && ((c.phase.Sending? || c.phase.Waiting?) && c.chan.Open? ==> c.id in s.pending || Taken(s.taken, i))
    && (c.phase.Leaving? ==> !c.phase.result.Streamed? && !c.phase.result.SenderGone?)
    && (c.phase.Returned? ==>
          !c.phase.outcome.SenderGone? && (c.phase.outcome.Streamed? ==> c.chan == Channel.Sent(c.phase.outcome.k)))
  }

  predicate TakenOk(s: State, k: nat)
    requires k in s.taken
  {
    var i := s.taken[k];
    && i < |s.calls| && k < |s.stream|
    && Answers(s.stream, s.calls[i].id, s.calls[i].since, k)
    && forall k' | k' in s.taken && k' != k :: s.taken[k'] != i
  }

  ghost predicate Inv(s: State) {
    && s.nextId == |s.calls| + 1
    && (forall id | id in s.pending :: 1 <= id <= |s.calls|)
    && (forall i | 0 <= i < |s.calls| :: CallOk(s, i))
    && (forall k | k in s.taken :: TakenOk(s, k))
  }

  lemma InvStep(s: State, a: Action)
    requires Inv(s) && Enabled(s, a)
    ensures Inv(Step(s, a))
  {
    match a
    case Receive(r) => InvReceive(s, r);
    case Deliver(k) => InvDeliver(s, k);
    case Register(c) => InvRegister(s, c);
    case Leave(c) => InvLeave(s, c);
    case _ => InvLocal(s, a);
  }

  lemma NewIsNotTaken(s: State)
    requires forall k | k in s.taken :: TakenOk(s, k)
    ensures !Taken(s.taken, |s.calls|)
  {
    assert forall k | k in s.taken :: TakenOk(s, k) && s.taken[k] < |s.calls|;
  }

  /** The other steps move one call, or add one, and nothing else. */
  lemma InvLocal(s: State, a: Action)
    requires Inv(s) && Enabled(s, a)
    requires !a.Receive? && !a.Deliver? && !a.Register? && !a.Leave?
    ensures Inv(Step(s, a))
  {
    hide Answers, Taken;
    var s' := Step(s, a);
    forall i | 0 <= i < |s'.calls|
      ensures CallOk(s', i)
    {
      if i < |s.calls| {
        assert CallOk(s, i);
      } else {
        NewIsNotTaken(s);
      }
    }
    forall k | k in s'.taken
      ensures TakenOk(s', k)
    {
      assert TakenOk(s, k);
    }
  }

  lemma InvRegister(s: State, c: nat)
    requires Inv(s) && Enabled(s, Register(c))
    ensures Inv(Step(s, Register(c)))
  {
    var s' := Step(s, Register(c));
    assert CallOk(s, c);
    forall i | 0 <= i < |s'.calls|
      ensures CallOk(s', i)
    {
      assert CallOk(s, i);
    }
    forall k | k in s'.taken
      ensures TakenOk(s', k)
    {
      assert TakenOk(s, k);
    }
  }

  lemma InvLeave(s: State, c: nat)
    requires Inv(s) && Enabled(s, Leave(c))
    ensures Inv(Step(s, Leave(c)))
  {
    var s' := Step(s, Leave(c));
    assert CallOk(s, c);
    forall i | 0 <= i < |s'.calls|
      ensures CallOk(s', i)
    {
      assert CallOk(s, i);
    }
    forall k | k in s'.taken
      ensures TakenOk(s', k)
    {
      assert TakenOk(s, k);
    }
  }

  /** Adding and removing a key changes the values by its value only. */
  lemma TakenChanges(s: State, s': State, k: nat, i: nat)
    requires k in s.taken
    requires s'.taken == s.taken - {k}
    ensures s.taken[k] != i ==> (Taken(s.taken, i) <==> Taken(s'.taken, i))
  {
    if s.taken[k] != i && Taken(s.taken, i) {
      var k' :| k' in s.taken && s.taken[k'] == i;
      assert k' in s'.taken && s'.taken[k'] == i;
    }
  }

  lemma TakenValues(taken: map<nat, nat>)
    ensures forall k | k in taken :: Taken(taken, taken[k])
  {
  }

  lemma StreamGrows(stream: seq<Response>, r: Response, id: Id, since: nat)
    requires since <= |stream|
    ensures forall k: nat | Answers(stream, id, since, k) :: k < |stream| && Answers(stream + [r], id, since, k)
    ensures NoneBetween(stream, id, since, |stream|) ==>
      if r.id == Some(id) then Answers(stream + [r], id, since, |stream|)
      else NoneBetween(stream + [r], id, since, |stream| + 1)
    ensures NoneBetween(stream + [r], id, since, |stream| + 1) ==>
      NoneBetween(stream, id, since, |stream|) && r.id != Some(id)
  {
    assert forall j | 0 <= j < |stream| :: (stream + [r])[j] == stream[j];
    assert (stream + [r])[|stream|] == r;
  }

  lemma InvReceive(s: State, r: Response)
    requires Inv(s)
    ensures Inv(Step(s, Receive(r)))
  {
    hide Answers, Taken, NoneBetween;
    var s', n := Step(s, Receive(r)), |s.stream|;
    assert forall k | k in s.taken :: TakenOk(s, k) && k < n;
    if n in s'.taken {
      InvMatch(s, r, r.id.value - 1);
    } else {
      forall i | 0 <= i < |s'.calls|
        ensures CallOk(s', i)
      {
        assert CallOk(s, i);
        StreamGrows(s.stream, r, s.calls[i].id, s.calls[i].since);
      }
      forall k | k in s'.taken
        ensures TakenOk(s', k)
      {
        assert TakenOk(s, k) && CallOk(s, s.taken[k]);
        StreamGrows(s.stream, r, s.calls[s.taken[k]].id, s.calls[s.taken[k]].since);
      }
    }
  }

  /** The response is for call c. */
  lemma InvMatch(s: State, r: Response, c: nat)
    requires Inv(s) && r.id == Some(c + 1) && c + 1 in s.pending
    ensures Inv(Step(s, Receive(r)))
  {
    hide Answers, Taken, NoneBetween;
    var s', n := Step(s, Receive(r)), |s.stream|;
    assert forall k | k in s.taken :: TakenOk(s, k) && k < n;
    assert s'.taken - {n} == s.taken;
    assert CallOk(s, c) && s'.taken[n] == c && !Taken(s.taken, c);
    TakenValues(s.taken);
    TakenValues(s'.taken);
    forall i | 0 <= i < |s'.calls|
      ensures CallOk(s', i)
    {
      assert CallOk(s, i);
      StreamGrows(s.stream, r, s.calls[i].id, s.calls[i].since);
      TakenChanges(s', s, n, i);
    }
    forall k | k in s'.taken
      ensures TakenOk(s', k)
    {
      if k != n {
        assert TakenOk(s, k) && s.taken[k] != c;
      }
      assert CallOk(s, s'.taken[k]);
      StreamGrows(s.stream, r, s.calls[s'.taken[k]].id, s.calls[s'.taken[k]].since);
    }
  }

  lemma NoOtherTaken(s: State, s': State, k: nat)
    requires k in s.taken && TakenOk(s, k) && s'.taken == s.taken - {k}
    ensures !Taken(s'.taken, s.taken[k])
  {
  }

  lemma InvDeliver(s: State, k: nat)
    requires Inv(s) && Enabled(s, Deliver(k))
    ensures Inv(Step(s, Deliver(k)))
  {
    hide Answers, Taken, NoneBetween;
    var s' := Step(s, Deliver(k));
    TakenValues(s.taken);
    TakenValues(s'.taken);
    assert TakenOk(s, k) && Taken(s.taken, s.taken[k]);
    assert !Taken(s'.taken, s.taken[k]) by {
      NoOtherTaken(s, s', k);
    }
    forall i | 0 <= i < |s'.calls|
      ensures CallOk(s', i)
    {
      assert CallOk(s, i);
      TakenChanges(s, s', k, i);
    }
    forall k' | k' in s'.taken
      ensures TakenOk(s', k')
    {
      assert TakenOk(s, k');
    }
  }

  lemma {:induction false} Reachable(states: seq<State>, acts: seq<Action>, n: nat)
    requires IsRun(states, acts) && n < |states|
    ensures Inv(states[n])
  {
    hide Inv, Enabled, Step;
    if n == 0 {
      StartOk();
    } else {
      Reachable(states, acts, n - 1);
      InvStep(states[n - 1], acts[n - 1]);
    }
  }

  lemma StartOk()
    ensures Inv(State(1, map[], [], [], map[]))
  {
  }

  // ---------- What callers can rely on ----------

  /** A call that a streamed response resolved got the first response with its own id that came after the
      call was registered, and no other call got the same one. */
  lemma ResolvedByItsResponse(states: seq<State>, acts: seq<Action>, n: nat, c: nat)
    requires IsRun(states, acts) && n < |states| && c < |states[n].calls|
    requires states[n].calls[c].phase.Returned? && states[n].calls[c].phase.outcome.Streamed?
    ensures var s := states[n];
      var k := s.calls[c].phase.outcome.k;
      && Answers(s.stream, s.calls[c].id, s.calls[c].since, k)
      && forall c' | 0 <= c' < |s.calls| && c' != c :: s.calls[c'].phase != Returned(Streamed(k))
  {
    Reachable(states, acts, n);
    var s := states[n];
    assert CallOk(s, c);
    forall c' | 0 <= c' < |s.calls| && s.calls[c'].phase == s.calls[c].phase
      ensures c' == c
    {
      assert CallOk(s, c');
    }
  }

  /** Two calls never have the same id. */
  lemma IdsDiffer(states: seq<State>, acts: seq<Action>, n: nat, c: nat, c': nat)
    requires IsRun(states, acts) && n < |states| && c < c' < |states[n].calls|
    ensures states[n].calls[c].id != states[n].calls[c'].id
    ensures states[n].calls[c].id == c + 1
  {
    Reachable(states, acts, n);
    assert CallOk(states[n], c) && CallOk(states[n], c');
  }

  lemma {:induction false} ReturnedForGood(states: seq<State>, acts: seq<Action>, n: nat, m: nat, c: nat)
    requires IsRun(states, acts) && n <= m < |states| && c < |states[n].calls|
    requires states[n].calls[c].phase.Returned?
    ensures c < |states[m].calls| && states[m].calls[c].phase == states[n].calls[c].phase
    ensures states[m].calls[c].id == states[n].calls[c].id
  {
    if n < m {
      ReturnedForGood(states, acts, n, m - 1, c);
      var s, a := states[m - 1], acts[m - 1];
      assert Enabled(s, a) && states[m] == Step(s, a);
    }
  }

  /** From its return on, a call has its result for good and its id is not in the pending table, whatever
      else happens. */
  lemma GoneAfterReturn(states: seq<State>, acts: seq<Action>, n: nat, m: nat, c: nat)
    requires IsRun(states, acts) && n <= m < |states| && c < |states[n].calls|
    requires states[n].calls[c].phase.Returned?
    ensures c < |states[m].calls| && states[m].calls[c].phase == states[n].calls[c].phase
    ensures states[n].calls[c].id !in states[m].pending
  {
    hide Step, Enabled;
    ReturnedForGood(states, acts, n, m, c);
    Reachable(states, acts, m);
    assert CallOk(states[m], c);
  }

  /** An id is in the pending table exactly while its call has been registered, has not returned, and no response
      with the id was received since. So the entry of a call whose caller gave it up stays. */
  lemma PendingExactlyWhen(states: seq<State>, acts: seq<Action>, n: nat, c: nat)
    requires IsRun(states, acts) && n < |states| && c < |states[n].calls|
    ensures var s := states[n];
      var call := s.calls[c];
      && (call.id in s.pending <==> IsOpen(call) && NoneBetween(s.stream, call.id, call.since, |s.stream|))
      && (call.id in s.pending ==> s.pending[call.id] == c)
  {
    Reachable(states, acts, n);
    assert CallOk(states[n], c);
  }

  /** And there are no other entries. */
  lemma PendingAreCalls(states: seq<State>, acts: seq<Action>, n: nat, id: Id)
    requires IsRun(states, acts) && n < |states| && id in states[n].pending
    ensures exists c | 0 <= c < |states[n].calls| :: states[n].calls[c].id == id && states[n].pending[id] == c
  {
    Reachable(states, acts, n);
    assert CallOk(states[n], id - 1);
  }

  lemma {:induction false} DroppedForGood(states: seq<State>, acts: seq<Action>, n: nat, m: nat, c: nat)
    requires IsRun(states, acts) && n <= m < |states| && c < |states[n].calls|
    requires states[n].calls[c].phase == Dropped(true)
    ensures c < |states[m].calls| && states[m].calls[c].phase == Dropped(true)
    ensures states[m].calls[c].id == states[n].calls[c].id && states[m].calls[c].since == states[n].calls[c].since
  {
    if n < m {
      DroppedForGood(states, acts, n, m - 1, c);
      var s, a := states[m - 1], acts[m - 1];
      assert Enabled(s, a) && states[m] == Step(s, a);
    }
  }

  /** After a registered call was given up, its entry is in the table in a later state if and only if no response
      with its id came since it was registered: nothing but a response ever removes it. */
  lemma DroppedEntryStays(states: seq<State>, acts: seq<Action>, n: nat, m: nat, c: nat)
    requires IsRun(states, acts) && n <= m < |states| && c < |states[n].calls|
    requires states[n].calls[c].phase == Dropped(true)
    ensures var call := states[n].calls[c];
      call.id in states[m].pending <==> NoneBetween(states[m].stream, call.id, call.since, |states[m].stream|)
  {
    hide Step, Enabled, IsRun, NoneBetween;
    DroppedForGood(states, acts, n, m, c);
    PendingExactlyWhen(states, acts, m, c);
  }

  /** A waiting call never finds that its sender was dropped: the error for it cannot arise. */
  lemma SenderNeverGone(states: seq<State>, acts: seq<Action>, n: nat, c: nat)
    requires IsRun(states, acts) && n < |states| && c < |states[n].calls|
    ensures !Enabled(states[n], FindSenderGone(c)) && states[n].calls[c].phase != Returned(SenderGone)
  {
    Reachable(states, acts, n);
    assert CallOk(states[n], c);
  }

  /** A call that has waited since its request was sent misses no response: once one with its id was
      received and the reader is done with it, the answer lies in its channel. */
  lemma AnswerIsThere(states: seq<State>, acts: seq<Action>, n: nat, c: nat, k: nat)
    requires IsRun(states, acts) && n < |states| && c < |states[n].calls|
    requires states[n].calls[c].phase.Waiting? && !Taken(states[n].taken, c)
    ensures var s := states[n];
      s.calls[c].since <= k < |s.stream| && s.stream[k].id == Some(s.calls[c].id)
      ==> Enabled(s, TakeAnswer(c)) && s.calls[c].chan.k <= k
  {
    Reachable(states, acts, n);
    assert CallOk(states[n], c);
  }

  // ---------- The table in place ----------

  /** The counter and the table of a client, changed by one atomic operation at a time. */
  class PendingTable {
    var nextId: Id
    var pending: map<Id, nat>

    constructor ()
      ensures nextId == 1 && pending == map[]
    {
      nextId, pending := 1, map[];
    }

    method TakeId(ghost s: State) returns (id: Id)
      requires nextId == s.nextId && pending == s.pending
      modifies this`nextId
      ensures id == old(nextId)
      ensures var s' := Step(s, Begin); nextId == s'.nextId && pending == s'.pending && s'.calls[|s.calls|].id == id
    {
      id := nextId;
      nextId := nextId + 1;
    }

    method Insert(id: Id, sender: nat, ghost s: State)
      requires nextId == s.nextId && pending == s.pending
      requires Enabled(s, Register(sender)) && s.calls[sender].id == id
      modifies this`pending
      ensures var s' := Step(s, Register(sender)); nextId == s'.nextId && pending == s'.pending
    {
      pending := pending[id := sender];
    }

    /** The reader's side: the entry leaves the table with the first response that carries its id. */
    method Resolve(response: Response, ghost s: State) returns (sender: Option<nat>)
      requires nextId == s.nextId && pending == s.pending
      modifies this`pending
      ensures var s' := Step(s, Receive(response));
        && nextId == s'.nextId && pending == s'.pending
        && (sender.None? ==> s'.taken == s.taken)
        && (sender.Some? ==> s'.taken == s.taken[|s.stream| := sender.value])
      ensures sender.Some? <==> response.id.Some? && response.id.value in old(pending)
    {
      sender := None;
      if response.id.Some? && response.id.value in pending {
        sender := Some(pending[response.id.value]);
        pending := pending - {response.id.value};
      }
    }

    method Remove(id: Id, ghost s: State, ghost c: nat)
      requires nextId == s.nextId && pending == s.pending
      requires Enabled(s, Leave(c)) && s.calls[c].id == id
      modifies this`pending
      ensures var s' := Step(s, Leave(c)); nextId == s'.nextId && pending == s'.pending
      ensures id !in pending
    {
      pending := pending - {id};
    }
  }
}
