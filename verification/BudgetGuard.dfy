/** The cost guard: concurrent loops read the spent totals and reserve an estimate under one lock, then
    adjust the reservation to the actual cost without the lock. Amounts are reals. */
module BudgetGuard {
  import opened Wrappers

  const RESERVATION: real := 0.05

  /** One budget window: what was spent in it before the run began, and its ceiling. */
  datatype Window = Window(spentBefore: real, ceiling: Option<real>)

  datatype Config = Config(hardBlock: bool, daily: Window, monthly: Window)

  datatype Call =
    | Arrived
    | Locked                                // holds the budget lock
    | HasRead(daily: real, monthly: real)   // still holds it
    | Denied
    | InFlight                              // reservation logged, lock released
    | Finished(cost: real)
    | Failed                                // returned an error, the reservation stays

  datatype State = State(calls: seq<Call>, ledger: seq<real>)

  datatype Action =
    | Arrive
    | Lock(i: nat)
    | Read(i: nat)
    | Deny(i: nat)
    | Reserve(i: nat)
    | Finish(i: nat, cost: real)
    | Fail(i: nat)

  function Sum(entries: seq<real>): real {
    if entries == [] then 0.0 else Sum(entries[..|entries| - 1]) + entries[|entries| - 1]
  }

  function Total(w: Window, s: State): real { w.spentBefore + Sum(s.ledger) }

  predicate HoldsLock(c: Call) { c.Locked? || c.HasRead? }

  predicate Over(w: Window, read: real) {
    w.ceiling.Some? && read + RESERVATION >= w.ceiling.value
  }

  predicate MustDeny(c: Config, dailyRead: real, monthlyRead: real) {
    c.hardBlock && (Over(c.daily, dailyRead) || Over(c.monthly, monthlyRead))
  }

  predicate Enabled(c: Config, s: State, a: Action) {
    a.Arrive? ||
    (a.i < |s.calls| &&
     var call := s.calls[a.i];
     match a
     case Lock(_) => call.Arrived? && forall k | 0 <= k < |s.calls| :: !HoldsLock(s.calls[k])
     case Read(_) => call.Locked?
     case Deny(_) => call.HasRead? && MustDeny(c, call.daily, call.monthly)
     case Reserve(_) => call.HasRead? && !MustDeny(c, call.daily, call.monthly)
     case Finish(_, cost) => call.InFlight? && cost >= 0.0
     case Fail(_) => call.InFlight?
     case Arrive => true)
  }

  function Step(c: Config, s: State, a: Action): State
    requires Enabled(c, s, a)
  {
    match a
    case Arrive => s.(calls := s.calls + [Arrived])
    case Lock(i) => s.(calls := s.calls[i := Locked])
    case Read(i) => s.(calls := s.calls[i := HasRead(Total(c.daily, s), Total(c.monthly, s))])
    case Deny(i) => s.(calls := s.calls[i := Denied])
    case Reserve(i) => State(s.calls[i := InFlight], s.ledger + [RESERVATION])
    case Finish(i, cost) => State(s.calls[i := Finished(cost)], s.ledger + [cost - RESERVATION])
    case Fail(i) => s.(calls := s.calls[i := Failed])
  }

  ghost predicate IsRun(c: Config, states: seq<State>, acts: seq<Action>) {
    && |states| == |acts| + 1 && states[0] == State([], [])
    && forall i | 0 <= i < |acts| :: Enabled(c, states[i], acts[i]) && states[i + 1] == Step(c, states[i], acts[i])
  }

  // ---------- What the ledger stands for ----------

  /** The actual cost of a finished call, the reservation of one in flight or failed, nothing otherwise. */
  function Charge(c: Call): real {
    match c
    case Finished(cost) => cost
    case InFlight => RESERVATION
    case Failed => RESERVATION
    case _ => 0.0
  }

  /** By how much a finished call cost more than was reserved for it. */
  function Excess(c: Call): real {
    if c.Finished? && c.cost > RESERVATION then c.cost - RESERVATION else 0.0
  }

  function Charges(calls: seq<Call>): real {
    if calls == [] then 0.0 else Charges(calls[..|calls| - 1]) + Charge(calls[|calls| - 1])
  }

  function Excesses(calls: seq<Call>): real {
    if calls == [] then 0.0 else Excesses(calls[..|calls| - 1]) + Excess(calls[|calls| - 1])
  }

  lemma {:induction false} PutSums(calls: seq<Call>, i: nat, c: Call)
    requires i < |calls|
    ensures Charges(calls[i := c]) == Charges(calls) + Charge(c) - Charge(calls[i])
    ensures Excesses(calls[i := c]) == Excesses(calls) + Excess(c) - Excess(calls[i])
  {
    var calls', n := calls[i := c], |calls| - 1;
    if i < n {
      PutSums(calls[..n], i, c);
      assert calls'[..n] == calls[..n][i := c];
    } else {
      assert calls'[..n] == calls[..n];
    }
  }

  lemma {:induction false} ExcessesNonNegative(calls: seq<Call>)
    ensures Excesses(calls) >= 0.0
    ensures (forall i | 0 <= i < |calls| :: Excess(calls[i]) == 0.0) ==> Excesses(calls) == 0.0
  {
    if calls != [] {
      ExcessesNonNegative(calls[..|calls| - 1]);
    }
  }

  /** What was spent, counting every finished call at most at its reservation. */
  function Net(calls: seq<Call>): real { Charges(calls) - Excesses(calls) }

  /** The net spending keeps within the ceiling of a window. */
  predicate WindowOk(c: Config, w: Window, s: State) {
    c.hardBlock && w.ceiling.Some? && w.spentBefore < w.ceiling.value ==> w.spentBefore + Net(s.calls) < w.ceiling.value
  }

  predicate OneHolder(calls: seq<Call>) {
    forall i, k | 0 <= i < |calls| && 0 <= k < |calls| :: HoldsLock(calls[i]) && HoldsLock(calls[k]) ==> i == k
  }

  /** A lock holder has read totals that are not below the net spending. */
  predicate ReadsCover(c: Config, calls: seq<Call>) {
    forall i | 0 <= i < |calls| && calls[i].HasRead? ::
      && c.daily.spentBefore + Net(calls) <= calls[i].daily
      && c.monthly.spentBefore + Net(calls) <= calls[i].monthly
  }

  predicate Inv(c: Config, s: State) {
    && Sum(s.ledger) == Charges(s.calls)
    && OneHolder(s.calls) && ReadsCover(c, s.calls)
    && WindowOk(c, c.daily, s) && WindowOk(c, c.monthly, s)
  }

  lemma SumsStep(c: Config, s: State, a: Action)
    requires Sum(s.ledger) == Charges(s.calls) && Enabled(c, s, a)
    ensures var s' := Step(c, s, a);
      && Sum(s'.ledger) == Charges(s'.calls)
      && Net(s'.calls) <= Net(s.calls) + if a.Reserve? then RESERVATION else 0.0
  {
    hide Sum, Charges, Excesses, MustDeny, Charge, Excess;
    if a.Arrive? {
      AddSums(s.calls);
    } else {
      CallStep(c, s, a);
      var s' := Step(c, s, a);
      hide Step;
      var call, call' := s.calls[a.i], s'.calls[a.i];
      PutSums(s.calls, a.i, call');
      SumAppend(s.ledger, Charge(call') - Charge(call));
    }
  }

  lemma AddSums(calls: seq<Call>)
    ensures Charges(calls + [Arrived]) == Charges(calls) && Excesses(calls + [Arrived]) == Excesses(calls)
  {
    assert (calls + [Arrived])[..|calls|] == calls;
  }

  /** A step of a call logs the change of its charge. */
  lemma CallStep(c: Config, s: State, a: Action)
    requires Enabled(c, s, a) && !a.Arrive?
    ensures var s' := Step(c, s, a);
      var call, call' := s.calls[a.i], s'.calls[a.i];
      && s'.calls == s.calls[a.i := call']
      && (if s'.ledger == s.ledger then Charge(call') == Charge(call)
          else s'.ledger == s.ledger + [Charge(call') - Charge(call)])
      && Charge(call') - Excess(call') <= Charge(call) - Excess(call) + if a.Reserve? then RESERVATION else 0.0
  {
    hide MustDeny;
  }

  lemma SumAppend(entries: seq<real>, x: real)
    ensures Sum(entries + [x]) == Sum(entries) + x
  {
    assert (entries + [x])[..|entries|] == entries;
  }

  lemma HolderStep(c: Config, s: State, a: Action)
    requires OneHolder(s.calls) && Enabled(c, s, a)
    ensures OneHolder(Step(c, s, a).calls)
    ensures a.Reserve? ==> forall k | 0 <= k < |s.calls| :: !HoldsLock(Step(c, s, a).calls[k])
  {
    hide Sum, MustDeny;
  }

  lemma ReadsStep(c: Config, s: State, a: Action)
    requires Inv(c, s) && Enabled(c, s, a)
    ensures ReadsCover(c, Step(c, s, a).calls)
  {
    hide Net, Sum, MustDeny, WindowOk, OneHolder, Charges;
    var s' := Step(c, s, a);
    SumsStep(c, s, a);
    HolderStep(c, s, a);
    NetIsAtMostCharges(s.calls);
    forall i | 0 <= i < |s'.calls| && s'.calls[i].HasRead?
      ensures c.daily.spentBefore + Net(s'.calls) <= s'.calls[i].daily
      ensures c.monthly.spentBefore + Net(s'.calls) <= s'.calls[i].monthly
    {
      assert HoldsLock(s'.calls[i]);
      if !(a.Read? && a.i == i) {
        assert s'.calls[i] == s.calls[i];
      }
    }
  }

  lemma NetIsAtMostCharges(calls: seq<Call>)
    ensures Net(calls) <= Charges(calls)
  {
    ExcessesNonNegative(calls);
  }

  lemma WindowStep(c: Config, s: State, a: Action, w: Window)
    requires Inv(c, s) && Enabled(c, s, a) && (w == c.daily || w == c.monthly)
    ensures WindowOk(c, w, Step(c, s, a))
  {
    SumsStep(c, s, a);
    hide Net, Sum, OneHolder;
  }

  lemma InvStep(c: Config, s: State, a: Action)
    requires Inv(c, s) && Enabled(c, s, a)
    ensures Inv(c, Step(c, s, a))
  {
    hide Net, Sum, Charges, OneHolder, ReadsCover, WindowOk, MustDeny, Enabled, Step;
    SumsStep(c, s, a);
    ReadsStep(c, s, a);
    WindowStep(c, s, a, c.daily);
    WindowStep(c, s, a, c.monthly);
    HolderStep(c, s, a);
  }

  lemma {:induction false} RunInv(c: Config, states: seq<State>, acts: seq<Action>, n: nat)
    requires IsRun(c, states, acts) && n < |states|
    ensures Inv(c, states[n])
  {
    hide Enabled, Step;
    if n > 0 {
      RunInv(c, states, acts, n - 1);
      InvStep(c, states[n - 1], acts[n - 1]);
    }
  }

  function CountReserved(calls: seq<Call>): nat {
    if calls == [] then 0
    else
      var last := calls[|calls| - 1];
      CountReserved(calls[..|calls| - 1]) + if last.InFlight? || last.Failed? then 1 else 0
  }

  function Actual(calls: seq<Call>): real {
    if calls == [] then 0.0
    else
      var last := calls[|calls| - 1];
      Actual(calls[..|calls| - 1]) + if last.Finished? then last.cost else 0.0
  }

  lemma {:induction false} ChargesSplit(calls: seq<Call>)
    ensures Charges(calls) == Actual(calls) + RESERVATION * CountReserved(calls) as real
  {
    if calls != [] {
      ChargesSplit(calls[..|calls| - 1]);
    }
  }

  /** In every interleaving a window's total is what was spent before, plus the actual costs of the finished
      calls, plus one reservation for each call in flight or failed. */
  lemma LedgerLaw(c: Config, states: seq<State>, acts: seq<Action>, n: nat, w: Window)
    requires IsRun(c, states, acts) && n < |states|
    ensures var calls := states[n].calls;
      Total(w, states[n]) == w.spentBefore + Actual(calls) + RESERVATION * CountReserved(calls) as real
  {
    RunInv(c, states, acts, n);
    ChargesSplit(states[n].calls);
  }

  /** With hard blocking, in every interleaving a total passes its ceiling by less than what finished calls
      cost beyond their reservations. If none did, it stays strictly below. */
  lemma CeilingHolds(c: Config, states: seq<State>, acts: seq<Action>, n: nat, w: Window)
    requires IsRun(c, states, acts) && n < |states| && (w == c.daily || w == c.monthly)
    requires c.hardBlock && w.ceiling.Some? && w.spentBefore < w.ceiling.value
    ensures Total(w, states[n]) < w.ceiling.value + Excesses(states[n].calls)
    ensures (forall i | 0 <= i < |states[n].calls| :: Excess(states[n].calls[i]) == 0.0) ==>
              Total(w, states[n]) < w.ceiling.value
    ensures Bounded(states[n].calls, 0.05) ==> Total(w, states[n]) < w.ceiling.value
  {
    RunInv(c, states, acts, n);
    ExcessesNonNegative(states[n].calls);
  }

  // ---------- Exactly when the ceilings hold ----------

  /** Its ceiling is not reached yet when the run begins. */
  predicate Open(w: Window) { w.ceiling.Some? && w.spentBefore < w.ceiling.value }

  predicate Within(w: Window, s: State) { Open(w) ==> Total(w, s) < w.ceiling.value }

  predicate Bounded(calls: seq<Call>, bound: real) {
    forall i | 0 <= i < |calls| && calls[i].Finished? :: calls[i].cost <= bound
  }

  /** In every run whose finished calls cost at most `bound`, both totals stay below their ceilings. */
  ghost predicate CeilingsHold(c: Config, bound: real) {
    forall states: seq<State>, acts: seq<Action> | IsRun(c, states, acts) && Bounded(states[|acts|].calls, bound) ::
      Within(c.daily, states[|acts|]) && Within(c.monthly, states[|acts|])
  }

  /** The first call of a run is not denied. */
  predicate CanReserve(c: Config) { !MustDeny(c, c.daily.spentBefore, c.monthly.spentBefore) }

  /** One reservation of 0.05 leaves the total below the ceiling. */
  predicate HasRoom(w: Window) { w.ceiling.None? || w.spentBefore + 0.05 < w.ceiling.value }

  lemma CanReserveExactlyWhen(c: Config)
    ensures CanReserve(c) <==> !c.hardBlock || (HasRoom(c.daily) && HasRoom(c.monthly))
  {
  }

  /** The ceilings hold in all runs if and only if there is none to pass, or hard blocking is on and either no
      call can cost more than the reservation of 0.05 or a window has no room for even one reservation. */
  lemma CeilingsHoldExactlyWhen(c: Config, bound: real)
    ensures CeilingsHold(c, bound) <==>
      || (!Open(c.daily) && !Open(c.monthly))
      || (c.hardBlock && (bound <= 0.05 || !HasRoom(c.daily) || !HasRoom(c.monthly)))
  {
    CanReserveExactlyWhen(c);
    hide MustDeny, CanReserve, HasRoom, Enabled, Step;
    if (!Open(c.daily) && !Open(c.monthly)) || (c.hardBlock && (bound <= RESERVATION || !CanReserve(c))) {
      forall states: seq<State>, acts: seq<Action> | IsRun(c, states, acts) && Bounded(states[|acts|].calls, bound)
        ensures Within(c.daily, states[|acts|]) && Within(c.monthly, states[|acts|])
      {
        WithinWhen(c, states, acts, bound);
      }
    } else {
      var states, acts := Exceeding(c, bound);
    }
  }

  lemma WithinWhen(c: Config, states: seq<State>, acts: seq<Action>, bound: real)
    requires IsRun(c, states, acts) && |states| == |acts| + 1 && Bounded(states[|acts|].calls, bound)
    requires (!Open(c.daily) && !Open(c.monthly)) || (c.hardBlock && (bound <= RESERVATION || !CanReserve(c)))
    ensures Within(c.daily, states[|acts|]) && Within(c.monthly, states[|acts|])
  {
    hide IsRun, MustDeny;
    if c.hardBlock && bound <= RESERVATION {
      assert forall i | 0 <= i < |states[|acts|].calls| :: Excess(states[|acts|].calls[i]) == 0.0;
      if Open(c.daily) {
        CeilingHolds(c, states, acts, |acts|, c.daily);
      }
      if Open(c.monthly) {
        CeilingHolds(c, states, acts, |acts|, c.monthly);
      }
    } else if c.hardBlock && !CanReserve(c) {
      NothingReserved(c, states, acts, |acts|);
    }
  }

  /** Nothing was let through, and what was read is what was spent before. */
  predicate Untouched(c: Config, s: State) {
    s.ledger == [] && forall i | 0 <= i < |s.calls| ::
      match s.calls[i]
      case HasRead(daily, monthly) => daily == c.daily.spentBefore && monthly == c.monthly.spentBefore
      case Arrived => true
      case Locked => true
      case Denied => true
      case _ => false
  }

  lemma {:induction false} NothingReserved(c: Config, states: seq<State>, acts: seq<Action>, n: nat)
    requires IsRun(c, states, acts) && n < |states| && !CanReserve(c)
    ensures Untouched(c, states[n])
  {
    hide MustDeny;
    if n > 0 {
      NothingReserved(c, states, acts, n - 1);
      UntouchedStep(c, states[n - 1], acts[n - 1]);
    }
  }

  lemma UntouchedStep(c: Config, s: State, a: Action)
    requires Untouched(c, s) && Enabled(c, s, a) && !CanReserve(c)
    ensures Untouched(c, Step(c, s, a))
  {
    hide MustDeny;
    assert Sum(s.ledger) == 0.0;
  }

  // ---------- Runs that pass a ceiling ----------

  /** No call holds the lock, and the ledger adds up to this. */
  predicate Quiet(s: State, total: real) {
    Sum(s.ledger) == total && forall i | 0 <= i < |s.calls| :: !HoldsLock(s.calls[i])
  }

  predicate LetsThrough(c: Config, total: real) {
    !MustDeny(c, c.daily.spentBefore + total, c.monthly.spentBefore + total)
  }

  lemma Extend(c: Config, states: seq<State>, acts: seq<Action>, a: Action, s': State)
    returns (states': seq<State>, acts': seq<Action>)
    requires IsRun(c, states, acts) && |states| == |acts| + 1
    requires Enabled(c, states[|acts|], a) && s' == Step(c, states[|acts|], a)
    ensures states' == states + [s'] && acts' == acts + [a] && IsRun(c, states', acts') && |states'| == |acts'| + 1
  {
    hide Enabled, Step;
    states', acts' := states + [s'], acts + [a];
    forall i | 0 <= i < |acts'|
      ensures Enabled(c, states'[i], acts'[i]) && states'[i + 1] == Step(c, states'[i], acts'[i])
    {
      if i < |acts| {
        assert Enabled(c, states[i], acts[i]) && states[i + 1] == Step(c, states[i], acts[i]);
      }
    }
  }

  function WithCall(s: State, call: Call): State { s.(calls := s.calls + [call]) }

  /** The way of one call from its arrival to its reservation. */
  lemma ReserveSteps(c: Config, s: State, total: real)
    requires Quiet(s, total) && LetsThrough(c, total)
    ensures var i, reserved := |s.calls|, State(s.calls + [InFlight], s.ledger + [RESERVATION]);
      var read := WithCall(s, HasRead(c.daily.spentBefore + total, c.monthly.spentBefore + total));
      && Enabled(c, s, Arrive) && Step(c, s, Arrive) == WithCall(s, Arrived)
      && Enabled(c, WithCall(s, Arrived), Lock(i)) && Step(c, WithCall(s, Arrived), Lock(i)) == WithCall(s, Locked)
      && Enabled(c, WithCall(s, Locked), Read(i)) && Step(c, WithCall(s, Locked), Read(i)) == read
      && Enabled(c, read, Reserve(i)) && Step(c, read, Reserve(i)) == reserved
  {
    hide MustDeny, Sum;
    var i := |s.calls|;
    assert WithCall(s, Arrived).calls[i := Locked] == s.calls + [Locked];
    var read := HasRead(c.daily.spentBefore + total, c.monthly.spentBefore + total);
    assert WithCall(s, Locked).calls[i := read] == s.calls + [read];
    assert WithCall(s, read).calls[i := InFlight] == s.calls + [InFlight];
  }

  /** One more call is let through and stays in flight. */
  lemma ReserveOne(c: Config, states: seq<State>, acts: seq<Action>, total: real)
    returns (states': seq<State>, acts': seq<Action>)
    requires IsRun(c, states, acts) && |states| == |acts| + 1
    requires Quiet(states[|acts|], total) && LetsThrough(c, total)
    ensures IsRun(c, states', acts') && |states'| == |acts'| + 1
    ensures states'[|acts'|].calls == states[|acts|].calls + [InFlight]
    ensures states'[|acts'|].ledger == states[|acts|].ledger + [RESERVATION]
    ensures Quiet(states'[|acts'|], total + RESERVATION)
  {
    var s := states[|acts|];
    ReserveSteps(c, s, total);
    SumAppend(s.ledger, RESERVATION);
    hide IsRun, Enabled, Step, MustDeny, Sum;
    var i := |s.calls|;
    states', acts' := Extend(c, states, acts, Arrive, WithCall(s, Arrived));
    states', acts' := Extend(c, states', acts', Lock(i), WithCall(s, Locked));
    states', acts' := Extend(c, states', acts', Read(i),
      WithCall(s, HasRead(c.daily.spentBefore + total, c.monthly.spentBefore + total)));
    states', acts' := Extend(c, states', acts', Reserve(i), State(s.calls + [InFlight], s.ledger + [RESERVATION]));
  }

  /** One more call is let through and finishes. */
  lemma FinishOne(c: Config, states: seq<State>, acts: seq<Action>, total: real, cost: real, bound: real)
    returns (states': seq<State>, acts': seq<Action>)
    requires IsRun(c, states, acts) && |states| == |acts| + 1
    requires Quiet(states[|acts|], total) && LetsThrough(c, total)
    requires Bounded(states[|acts|].calls, bound) && 0.0 <= cost <= bound
    ensures IsRun(c, states', acts') && |states'| == |acts'| + 1
    ensures Quiet(states'[|acts'|], total + cost) && Bounded(states'[|acts'|].calls, bound)
  {
    states', acts' := ReserveOne(c, states, acts, total);
    hide IsRun;
    var s, i := states'[|acts'|], |states[|acts|].calls|;
    var done := State(s.calls[i := Finished(cost)], s.ledger + [cost - RESERVATION]);
    SumAppend(s.ledger, cost - RESERVATION);
    hide Sum;
    states', acts' := Extend(c, states', acts', Finish(i, cost), done);
  }

  /** Calls of at most `bound` each that spend an amount which keeps every one of them let through. */
  lemma {:induction false} Spend(c: Config, states: seq<State>, acts: seq<Action>, total: real, amount: real,
                                 bound: real, n: nat)
    returns (states': seq<State>, acts': seq<Action>)
    requires IsRun(c, states, acts) && |states| == |acts| + 1
    requires Quiet(states[|acts|], total) && Bounded(states[|acts|].calls, bound)
    requires 0.0 <= amount <= n as real * bound && 0.0 < bound && LetsThrough(c, total + amount)
    ensures IsRun(c, states', acts') && |states'| == |acts'| + 1
    ensures Quiet(states'[|acts'|], total + amount) && Bounded(states'[|acts'|].calls, bound)
    decreases n
  {
    hide IsRun, Quiet;
    if n == 0 || amount == 0.0 {
      states', acts' := states, acts;
    } else {
      var cost := if amount <= bound then amount else bound;
      assert n as real * bound == (n - 1) as real * bound + bound;
      StillLetsThrough(c, total, total + amount);
      states', acts' := FinishOne(c, states, acts, total, cost, bound);
      assert total + cost + (amount - cost) == total + amount;
      states', acts' := Spend(c, states', acts', total + cost, amount - cost, bound, n - 1);
    }
  }

  lemma StillLetsThrough(c: Config, less: real, more: real)
    requires less <= more && LetsThrough(c, more)
    ensures LetsThrough(c, less)
  {
  }

  lemma Multiple(amount: real, bound: real) returns (n: nat)
    requires amount >= 0.0 && bound > 0.0
    ensures amount <= n as real * bound
  {
    var q := amount / bound;
    n := q.Floor + 1;
    assert q < n as real;
    assert q * bound == amount;
  }

  /** What is left below the nearer of the open ceilings. */
  function Room(c: Config): real
    requires Open(c.daily) || Open(c.monthly)
  {
    var d := if Open(c.daily) then c.daily.ceiling.value - c.daily.spentBefore else 0.0;
    var m := if Open(c.monthly) then c.monthly.ceiling.value - c.monthly.spentBefore else 0.0;
    if !Open(c.monthly) || (Open(c.daily) && d <= m) then d else m
  }

  lemma RoomIsPassed(c: Config, s: State, total: real)
    requires (Open(c.daily) || Open(c.monthly)) && Quiet(s, total) && total >= Room(c)
    ensures !Within(c.daily, s) || !Within(c.monthly, s)
  {
  }

  lemma RoomLetsThrough(c: Config, total: real)
    requires (Open(c.daily) || Open(c.monthly)) && CanReserve(c) && (c.hardBlock ==> total + RESERVATION < Room(c))
    ensures LetsThrough(c, total)
  {
  }

  /** A run that passes a ceiling: calls that spend what lies between the room and the bound, and then one call
      that costs the bound. Without hard blocking, reservations alone pass it. */
  lemma Exceeding(c: Config, bound: real) returns (states: seq<State>, acts: seq<Action>)
    requires Open(c.daily) || Open(c.monthly)
    requires c.hardBlock ==> bound > RESERVATION && CanReserve(c)
    ensures IsRun(c, states, acts) && |states| == |acts| + 1 && Bounded(states[|acts|].calls, bound)
    ensures !Within(c.daily, states[|acts|]) || !Within(c.monthly, states[|acts|])
  {
    states, acts := [State([], [])], [];
    assert Quiet(states[0], 0.0);
    var room := Room(c);
    if c.hardBlock {
      hide IsRun, Quiet;
      RoomBeyondReservation(c);
      var amount := if room <= bound then 0.0 else room - bound;
      var n := Multiple(amount, bound);
      RoomLetsThrough(c, amount);
      assert 0.0 + amount == amount;
      states, acts := Spend(c, states, acts, 0.0, amount, bound, n);
      states, acts := FinishOne(c, states, acts, amount, bound, bound);
      RoomIsPassed(c, states[|acts|], amount + bound);
    } else {
      hide IsRun, Quiet;
      var n := Multiple(room, RESERVATION);
      states, acts := ReserveMany(c, states, acts, 0.0, n, bound);
      RoomIsPassed(c, states[|acts|], 0.0 + n as real * RESERVATION);
    }
  }

  lemma RoomBeyondReservation(c: Config)
    requires (Open(c.daily) || Open(c.monthly)) && c.hardBlock && CanReserve(c)
    ensures Room(c) > RESERVATION
  {
  }

  lemma {:induction false} ReserveMany(c: Config, states: seq<State>, acts: seq<Action>, total: real, n: nat,
                                       bound: real)
    returns (states': seq<State>, acts': seq<Action>)
    requires IsRun(c, states, acts) && |states| == |acts| + 1 && !c.hardBlock
    requires Quiet(states[|acts|], total) && Bounded(states[|acts|].calls, bound)
    ensures IsRun(c, states', acts') && |states'| == |acts'| + 1
    ensures Quiet(states'[|acts'|], total + n as real * RESERVATION) && Bounded(states'[|acts'|].calls, bound)
    decreases n
  {
    hide IsRun, Quiet;
    if n == 0 {
      states', acts' := states, acts;
      assert total + 0 as real * RESERVATION == total;
    } else {
      states', acts' := ReserveOne(c, states, acts, total);
      assert total + RESERVATION + (n - 1) as real * RESERVATION == total + n as real * RESERVATION;
      states', acts' := ReserveMany(c, states', acts', total + RESERVATION, n - 1, bound);
    }
  }

  /** For example a ceiling of 0.10 does not hold when a call may cost 0.20. */
  lemma CeilingNeedsTheReservation() returns (c: Config, states: seq<State>, acts: seq<Action>)
    ensures c == Config(true, Window(0.0, Some(0.1)), Window(0.0, None))
    ensures IsRun(c, states, acts) && |states| == |acts| + 1 && Bounded(states[|acts|].calls, 0.2)
    ensures Total(c.daily, states[|acts|]) >= 0.1
  {
    c := Config(true, Window(0.0, Some(0.1)), Window(0.0, None));
    hide IsRun;
    states, acts := Exceeding(c, 0.2);
  }
}
