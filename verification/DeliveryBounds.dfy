/** Bounds on the queue: how many messages can be pending, what an open circuit lets through, and when claims are due. */
module DeliveryBounds {
  import opened Sums
  import opened CircuitBreaking
  import opened DeliveryModel
  import opened DeliverySafety
  import opened DeliveryRuns
  import opened DeliveryScenarios
  import Backoff

  // ----- backpressure -----

  function HeldWeight(pc: WorkerPc): int {
    if Holds(pc) then 1 else 0
  }

  function CheckedWeight(pc: AcceptorPc): int {
    if pc.Checked? then 1 else 0
  }

  ghost function Tests(): Label -> int {
    (l: Label) => if l.SubmitTest? then 1 else 0
  }

  /** Rows that are pending, that may become pending again, or that an acceptor is already committed to inserting. */
  ghost function Load(s: State): int {
    Sum(s.rows, PendingWeight) + Sum(s.workers, HeldWeight) + Sum(s.acceptors, CheckedWeight)
  }

  /**
   The limit the checks enforce: the configured one, one row per worker, and one row per acceptor beyond the first; with a
   limit below one, or nobody to accept anything, no row at all.
   */
  function RealLimit(c: Config): int {
    if c.maxPending >= 1 && c.acceptors >= 1 then c.maxPending + c.workers + c.acceptors - 1 else 0
  }

  lemma ActLoad(c: Config, s: State, w: nat, act: Act)
    requires Safe(c, s) && w < |s.workers| && CanAct(s, s.workers[w], act)
    ensures Load(Act1(s, w, act)) <= Load(s)
  {
    var pc := s.workers[w];
    assert PcFits(pc, s.rows);
    SumUpdate(s.workers, w, NextPc(s, pc, act), HeldWeight);
    match act {
      case Claim(id) => SumUpdate(s.rows, id, Claimed(s.rows[id]), PendingWeight);
      case FailUnconfigured(id) => SumUpdate(s.rows, id, MarkedFailed(s.rows[id]), PendingWeight);
      case MarkSent(id) => SumUpdate(s.rows, id, MarkedSent(s.rows[id]), PendingWeight);
      case MarkRetry(id, delay) => SumUpdate(s.rows, id, MarkedRetry(s.rows[id], delay, s.utc), PendingWeight);
      case MarkFailed(id) => SumUpdate(s.rows, id, MarkedFailed(s.rows[id]), PendingWeight);
      case _ =>
    }
  }

  lemma AcceptLoad(c: Config, s: State, a: nat, act: AcceptAct)
    requires Safe(c, s) && a < |s.acceptors| && CanAccept(c, s, s.acceptors[a], act)
    ensures Load(Accept(c, s, a, act)) <= Load(s) || Load(Accept(c, s, a, act)) <= RealLimit(c)
  {
    var t := Accept(c, s, a, act);
    SumUpdate(s.acceptors, a, t.acceptors[a], CheckedWeight);
    assert s.acceptors[a := s.acceptors[a]] == s.acceptors;
    if act.Insert? {
      SumAppend(s.rows, NewRow(act.at), PendingWeight);
    } else if act.CountPending? && Pending(s.rows) < c.maxPending {
      SumNonNegative(s.rows, PendingWeight);
      SumBounds(s.workers, HeldWeight);
      SumBelow(s.acceptors, a, CheckedWeight);
    }
  }

  lemma StepLoad(c: Config, s: State, l: Label, tests: nat)
    requires Safe(c, s) && Enabled(c, s, l)
    requires Load(s) <= RealLimit(c) + tests
    ensures Load(Apply(c, s, l)) <= RealLimit(c) + tests + Tests()(l)
  {
    match l {
      case Tick(_, _) =>
      case Worker(w, act) => ActLoad(c, s, w, act);
      case Acceptor(a, act) => AcceptLoad(c, s, a, act);
      case SubmitTest(_, at) => SumAppend(s.rows, NewRow(at), PendingWeight);
    }
  }

  lemma {:induction false} LoadBound(c: Config, b: Behavior, n: nat)
    requires IsBehavior(c, b) && n < |b.states|
    ensures Load(b.states[n]) <= RealLimit(c) + Tally(b, n, Tests())
  {
    if n == 0 {
      SumZero(Init(c).workers, HeldWeight);
      SumZero(Init(c).acceptors, CheckedWeight);
      TallyStart(b, Tests());
    } else {
      LoadBound(c, b, n - 1);
      AlwaysSafe(c, b, n - 1);
      TallyMonotone(b, 0, n - 1, Tests());
      StepLoad(c, b.states[n - 1], b.labels[n - 1], Tally(b, n - 1, Tests()));
      TallyStep(b, n - 1, Tests());
    }
  }

  /**
   What backpressure really guarantees. With N workers and K interleaving acceptors, at most
   max_pending + N + K - 1 rows are ever pending, plus one for every test message submitted without the check.
   */
  lemma PendingBound(c: Config, b: Behavior, n: nat)
    requires IsBehavior(c, b) && n < |b.states|
    ensures Pending(b.states[n].rows) <= RealLimit(c) + Tally(b, n, Tests())
  {
    LoadBound(c, b, n);
    SumNonNegative(b.states[n].workers, HeldWeight);
    SumNonNegative(b.states[n].acceptors, CheckedWeight);
  }

  // ----- the bound is attained -----

  /** The first `n` workers hold their own row after a retriable failure. */
  ghost predicate StillHold(s: State, n: nat) {
    && n <= |s.workers| && n <= |s.rows|
    && forall w :: 0 <= w < n ==> s.workers[w] == Handling(w, true, false)
                                  && s.rows[w].attempts == 1 && s.rows[w].status == Processing
  }

  /** The first `n` workers hold their rows, `rest` rows wait, `checked` acceptors are about to insert. */
  ghost predicate Staged(c: Config, s: State, n: nat, rest: int, checked: nat) {
    && |s.workers| == c.workers && |s.acceptors| == c.acceptors && n <= c.workers && checked <= c.acceptors
    && StillHold(s, n)
    && (forall w :: n <= w < c.workers ==> s.workers[w] == Idle)
    && (forall a :: 0 <= a < checked ==> s.acceptors[a] == Checked)
    && (forall a :: checked <= a < c.acceptors ==> s.acceptors[a] == Ready)
    && s.breaker.state == Closed
    && s.utc == 0.0
    && Pending(s.rows) == rest
  }

  /** The state is reached by some run without test messages. */
  ghost predicate Reachable(c: Config, s: State) {
    RunsOf(c, {}, Tests())(s, 0)
  }

  lemma Go(c: Config, s: State, l: Label)
    requires Reachable(c, s) && Enabled(c, s, l)
    requires !l.SubmitTest? && !(l.Worker? && l.act.SendReturns?) && FaultOf(l).None?
    ensures Reachable(c, Apply(c, s, l))
  {
    RunsAreClosed(c, {}, Tests());
    Take(c, Tests(), RunsOf(c, {}, Tests()), s, 0, l);
  }

  /** Acceptor `a` passes both checks. */
  lemma Check(c: Config, s: State, n: nat, rest: int, a: nat) returns (t: State)
    requires Reachable(c, s) && Staged(c, s, n, rest, a)
    requires a < c.acceptors && rest < c.maxPending
    ensures Reachable(c, t) && Staged(c, t, n, rest, a + 1) && t.rows == s.rows
  {
    var s1 := s.(acceptors := s.acceptors[a := CircuitPassed]);
    t := s.(acceptors := s.acceptors[a := Checked]);
    Go(c, s, Acceptor(a, PassCircuit));
    assert Apply(c, s, Acceptor(a, PassCircuit)) == s1;
    Go(c, s1, Acceptor(a, CountPending));
    assert Apply(c, s1, Acceptor(a, CountPending)) == t;
  }

  /** The last acceptor that passed the checks inserts its row, and replies. */
  lemma InsertOne(c: Config, s: State, n: nat, rest: int, checked: nat) returns (t: State)
    requires Reachable(c, s) && Staged(c, s, n, rest, checked) && checked >= 1
    ensures Reachable(c, t) && Staged(c, t, n, rest + 1, checked - 1) && t.rows == s.rows + [NewRow(0.0)]
  {
    var a, id, rows := checked - 1, |s.rows|, s.rows + [NewRow(0.0)];
    SumAppend(s.rows, NewRow(0.0), PendingWeight);
    var s1 := s.(acceptors := s.acceptors[a := Inserted(id)], rows := rows);
    t := s.(acceptors := s.acceptors[a := Ready], rows := rows);
    Go(c, s, Acceptor(a, Insert(id, 0.0)));
    assert Apply(c, s, Acceptor(a, Insert(id, 0.0))) == s1;
    Go(c, s1, Acceptor(a, Reply(id)));
    assert Apply(c, s1, Acceptor(a, Reply(id))) == t;
  }

  /** The state after worker `n` has claimed row `n` and its send has failed. */
  ghost function AfterFailure(s: State, n: nat): State
    requires n < |s.workers| && n < |s.rows|
  {
    Counting(At(Owned(s, n, n), n, Handling(n, true, false)), s.counters.inFlight + 1)
  }

  lemma FailureIsStaged(c: Config, s: State, n: nat)
    requires Staged(c, s, n, 1, 0) && n < c.workers && |s.rows| == n + 1 && s.rows[n] == NewRow(0.0)
    ensures Staged(c, AfterFailure(s, n), n + 1, 0, 0)
  {
    var t := AfterFailure(s, n);
    SumUpdate(s.rows, n, Claimed(NewRow(0.0)), PendingWeight);
    assert t.rows == s.rows[n := Claimed(NewRow(0.0))];
    assert t.workers == s.workers[n := Handling(n, true, false)];
  }

  /** Worker `n` claims the only pending row, row `n`, and its send fails with a retriable error. */
  lemma ClaimAndFail(c: Config, s: State, n: nat) returns (t: State)
    requires Reachable(c, s) && Staged(c, s, n, 1, 0) && n < c.workers
    requires |s.rows| == n + 1 && s.rows[n] == NewRow(0.0)
    ensures Reachable(c, t) && Staged(c, t, n + 1, 0, 0) && |t.rows| == n + 1
  {
    RunsAreClosed(c, {}, Tests());
    ClaimRow(c, Tests(), RunsOf(c, {}, Tests()), s, 0, n, n);
    FailSend(c, Tests(), RunsOf(c, {}, Tests()), Owned(s, n, n), 0, n, n);
    FailureIsStaged(c, s, n);
    t := AfterFailure(s, n);
  }

  lemma {:induction false} FillWorkers(c: Config, n: nat) returns (t: State)
    requires n <= c.workers && c.acceptors >= 1 && c.maxPending >= 1
    ensures Reachable(c, t) && Staged(c, t, n, 0, 0) && |t.rows| == n
  {
    if n == 0 {
      t := Init(c);
      RunsAreClosed(c, {}, Tests());
    } else {
      t := FillWorkers(c, n - 1);
      t := Check(c, t, n - 1, 0, 0);
      t := InsertOne(c, t, n - 1, 0, 1);
      t := ClaimAndFail(c, t, n - 1);
    }
  }

  lemma {:induction false} FillQueue(c: Config, m: nat) returns (t: State)
    requires c.acceptors >= 1 && m < c.maxPending
    ensures Reachable(c, t) && Staged(c, t, c.workers, m, 0)
  {
    if m == 0 {
      t := FillWorkers(c, c.workers);
    } else {
      t := FillQueue(c, m - 1);
      t := Check(c, t, c.workers, m - 1, 0);
      t := InsertOne(c, t, c.workers, m - 1, 1);
    }
  }

  lemma {:induction false} CheckAll(c: Config, k: nat) returns (t: State)
    requires 1 <= c.acceptors && k <= c.acceptors && c.maxPending >= 1
    ensures Reachable(c, t) && Staged(c, t, c.workers, c.maxPending - 1, k)
  {
    if k == 0 {
      t := FillQueue(c, c.maxPending - 1);
    } else {
      t := CheckAll(c, k - 1);
      t := Check(c, t, c.workers, c.maxPending - 1, k - 1);
    }
  }

  lemma {:induction false} InsertAll(c: Config, k: nat) returns (t: State)
    requires 1 <= c.acceptors && k <= c.acceptors && c.maxPending >= 1
    ensures Reachable(c, t) && Staged(c, t, c.workers, c.maxPending - 1 + k, c.acceptors - k)
  {
    if k == 0 {
      t := CheckAll(c, c.acceptors);
    } else {
      t := InsertAll(c, k - 1);
      t := InsertOne(c, t, c.workers, c.maxPending - 2 + k, c.acceptors - k + 1);
    }
  }

  /** The state after worker `n` has given row `n` back. */
  ghost function GivenBack(s: State, n: nat): State
    requires n < |s.workers| && n < |s.rows|
  {
    At(s, n, OutcomeMarked(n, true)).(rows := s.rows[n := MarkedRetry(s.rows[n], Backoff.Delay(1), s.utc)])
  }

  lemma GiveBack(c: Config, s: State, n: nat)
    requires Reachable(c, s) && n < c.workers && |s.workers| == c.workers && StillHold(s, n + 1)
    ensures Reachable(c, GivenBack(s, n))
    ensures StillHold(GivenBack(s, n), n) && Pending(GivenBack(s, n).rows) == Pending(s.rows) + 1
  {
    var l := Worker(n, MarkRetry(n, Backoff.Delay(1)));
    assert s.workers[n] == Handling(n, true, false);
    Go(c, s, l);
    assert Apply(c, s, l) == GivenBack(s, n);
    SumUpdate(s.rows, n, MarkedRetry(s.rows[n], Backoff.Delay(1), s.utc), PendingWeight);
  }

  /** The workers `n` and above have given their row back, one after the other; those below still hold theirs. */
  lemma {:induction false} RetryAll(c: Config, n: nat) returns (t: State)
    requires 1 <= c.acceptors && n <= c.workers && c.maxPending >= 1
    ensures Reachable(c, t) && |t.workers| == c.workers && StillHold(t, n)
    ensures Pending(t.rows) == c.maxPending - 1 + c.acceptors + (c.workers - n)
    decreases c.workers - n
  {
    if n == c.workers {
      t := InsertAll(c, c.acceptors);
    } else {
      var s := RetryAll(c, n + 1);
      GiveBack(c, s, n);
      t := GivenBack(s, n);
    }
  }

  ghost predicate WithoutTests(b: Behavior) {
    forall i :: 0 <= i < |b.labels| ==> !b.labels[i].SubmitTest?
  }

  lemma SomeRunReaches(c: Config, t: State)
    requires Reachable(c, t) && Pending(t.rows) == RealLimit(c)
    ensures exists b :: IsBehavior(c, b) && WithoutTests(b) && Pending(Last(b).rows) == RealLimit(c)
  {
    var b :| IsBehavior(c, b) && Last(b) == t && Sum(b.labels, Tests()) == 0;
    forall i | 0 <= i < |b.labels| ensures !b.labels[i].SubmitTest? {
      SumAtLeast(b.labels, i, Tests());
    }
    assert IsBehavior(c, b) && WithoutTests(b) && Pending(Last(b).rows) == RealLimit(c);
  }

  /** The bound cannot be improved: for every configuration some run reaches it, without any test message. */
  lemma PendingBoundIsAttained(c: Config)
    ensures exists b :: IsBehavior(c, b) && WithoutTests(b) && Pending(Last(b).rows) == RealLimit(c)
  {
    if c.acceptors >= 1 && c.maxPending >= 1 {
      var t := RetryAll(c, 0);
      SomeRunReaches(c, t);
    } else {
      RunsAreClosed(c, {}, Tests());
      SomeRunReaches(c, Init(c));
    }
  }

  // ----- the open circuit -----

  /** The worker has been let through by the breaker and has not yet tried to claim. */
  function LetThroughWeight(pc: WorkerPc): int {
    if pc.Allowed? || pc.Selected? then 1 else 0
  }

  ghost function ClaimsBetween(b: Behavior, i: nat, j: nat): int
    requires i <= j <= |b.labels|
  {
    Sum(b.labels[i..j], AnyClaim())
  }

  lemma StepWhileOpen(c: Config, s: State, l: Label)
    requires Safe(c, s) && Enabled(c, s, l)
    requires s.breaker.state == Open && Apply(c, s, l).breaker.state == Open
    ensures AnyClaim()(l) + Sum(Apply(c, s, l).workers, LetThroughWeight) <= Sum(s.workers, LetThroughWeight)
  {
    if l.Worker? {
      SumUpdate(s.workers, l.w, NextPc(s, s.workers[l.w], l.act), LetThroughWeight);
    }
  }

  lemma OpeningStep(c: Config, s: State, l: Label)
    requires Safe(c, s) && Enabled(c, s, l)
    requires s.breaker.state != Open && Apply(c, s, l).breaker.state == Open
    ensures l.Worker? && l.act.Record?
    ensures Sum(Apply(c, s, l).workers, LetThroughWeight) <= c.workers - 1
  {
    assert l.Worker? && l.act.Record?;
    SumBelow(Apply(c, s, l).workers, l.w, LetThroughWeight);
  }

  lemma OpeningAt(c: Config, b: Behavior, i: nat)
    requires IsBehavior(c, b) && i < |b.labels|
    requires b.states[i].breaker.state != Open && b.states[i + 1].breaker.state == Open
    ensures ClaimsBetween(b, i, i + 1) + Sum(b.states[i + 1].workers, LetThroughWeight) <= c.workers - 1
  {
    AlwaysSafe(c, b, i);
    OpeningStep(c, b.states[i], b.labels[i]);
    assert b.labels[i..i + 1] == [] + [b.labels[i]];
    SumAppend([], b.labels[i], AnyClaim());
  }

  lemma WhileOpenAt(c: Config, b: Behavior, i: nat, k: nat)
    requires IsBehavior(c, b) && i <= k < |b.labels|
    requires b.states[k].breaker.state == Open && b.states[k + 1].breaker.state == Open
    ensures ClaimsBetween(b, i, k + 1) + Sum(b.states[k + 1].workers, LetThroughWeight)
            <= ClaimsBetween(b, i, k) + Sum(b.states[k].workers, LetThroughWeight)
  {
    AlwaysSafe(c, b, k);
    StepWhileOpen(c, b.states[k], b.labels[k]);
    assert b.labels[i..k + 1] == b.labels[i..k] + [b.labels[k]];
    SumAppend(b.labels[i..k], b.labels[k], AnyClaim());
  }

  /** The breaker is open in the states after `i` up to `j`. */
  ghost predicate OpenAllAlong(b: Behavior, i: nat, j: nat)
    requires j < |b.states|
  {
    forall k :: i < k <= j ==> b.states[k].breaker.state == Open
  }

  /** The claims since step `i`, and the workers that may still make one. */
  ghost function ClaimsAhead(b: Behavior, i: nat, k: nat): int
    requires i <= k <= |b.labels| && k < |b.states|
  {
    ClaimsBetween(b, i, k) + Sum(b.states[k].workers, LetThroughWeight)
  }

  lemma {:induction false} ClaimsAheadFall(b: Behavior, i: nat, m: nat, j: nat)
    requires i <= m <= j <= |b.labels| && j < |b.states|
    requires forall k :: m <= k < j ==> ClaimsAhead(b, i, k + 1) <= ClaimsAhead(b, i, k)
    ensures ClaimsAhead(b, i, j) <= ClaimsAhead(b, i, m)
    decreases j
  {
    if m < j {
      ClaimsAheadFall(b, i, m, j - 1);
    }
  }

  lemma OpenCircuitLoad(c: Config, b: Behavior, i: nat, j: nat)
    requires IsBehavior(c, b) && i < j < |b.states|
    requires b.states[i].breaker.state != Open && OpenAllAlong(b, i, j)
    ensures ClaimsAhead(b, i, j) <= c.workers - 1
  {
    OpeningAt(c, b, i);
    forall k | i + 1 <= k < j ensures ClaimsAhead(b, i, k + 1) <= ClaimsAhead(b, i, k) {
      WhileOpenAt(c, b, i, k);
    }
    ClaimsAheadFall(b, i, i + 1, j);
  }

  /**
   Once the breaker opens, at most N - 1 claims start before it leaves the open state: the worker whose recorded
   failure opened it is not among those already let through, and each of those claims at most once.
   */
  lemma OpenCircuitBound(c: Config, b: Behavior, i: nat, j: nat)
    requires IsBehavior(c, b) && i < j < |b.states|
    requires b.states[i].breaker.state != Open && OpenAllAlong(b, i, j)
    ensures ClaimsBetween(b, i, j) <= c.workers - 1
  {
    OpenCircuitLoad(c, b, i, j);
    SumNonNegative(b.states[j].workers, LetThroughWeight);
  }

  // ----- scheduled delays -----

  /** The delays scheduled for the message by the first `n` steps. */
  ghost function Scheduled(b: Behavior, n: nat, id: nat): real
    requires n <= |b.labels|
  {
    if n == 0 then 0.0
    else
      var l := b.labels[n - 1];
      Scheduled(b, n - 1, id) + if l.Worker? && l.act.MarkRetry? && l.act.id == id then l.act.delay else 0.0
  }

  /** The part of the delay ladder a row can have used up. */
  ghost function LadderUsed(s: State, id: nat): nat {
    if id >= |s.rows| || s.rows[id].attempts == 0 then 0
    else if s.rows[id].status == Retrying then s.rows[id].attempts
    else s.rows[id].attempts - 1
  }

  lemma StepLadder(c: Config, s: State, l: Label, id: nat)
    requires Safe(c, s) && Enabled(c, s, l)
    ensures if l.Worker? && l.act.MarkRetry? && l.act.id == id then
              LadderUsed(Apply(c, s, l), id) == LadderUsed(s, id) + 1
              && l.act.delay == Backoff.Delay(LadderUsed(Apply(c, s, l), id))
            else LadderUsed(Apply(c, s, l), id) == LadderUsed(s, id)
  {
    if l.Worker? {
      assert PcFits(s.workers[l.w], s.rows);
    }
  }

  lemma LadderAt(c: Config, b: Behavior, n: nat, id: nat)
    requires IsBehavior(c, b) && n < |b.labels|
    ensures LadderAhead(b, n + 1, id) == LadderAhead(b, n, id)
  {
    AlwaysSafe(c, b, n);
    StepLadder(c, b.states[n], b.labels[n], id);
  }

  ghost function LadderAhead(b: Behavior, n: nat, id: nat): real
    requires n <= |b.labels| && n < |b.states|
  {
    Backoff.LadderTotal(LadderUsed(b.states[n], id)) - Scheduled(b, n, id)
  }

  lemma {:induction false} LadderKeepsPace(b: Behavior, n: nat, id: nat)
    requires n <= |b.labels| && n < |b.states|
    requires forall k :: 0 <= k < n ==> LadderAhead(b, k + 1, id) == LadderAhead(b, k, id)
    ensures LadderAhead(b, n, id) == LadderAhead(b, 0, id)
  {
    if n > 0 {
      LadderKeepsPace(b, n - 1, id);
    }
  }

  /** The delays scheduled for a message are those of the ladder, one after the other, as far as its attempts have got. */
  lemma ScheduledIsLadder(c: Config, b: Behavior, n: nat, id: nat)
    requires IsBehavior(c, b) && n < |b.states|
    ensures Scheduled(b, n, id) == Backoff.LadderTotal(LadderUsed(b.states[n], id))
  {
    forall k | 0 <= k < n ensures LadderAhead(b, k + 1, id) == LadderAhead(b, k, id) {
      LadderAt(c, b, k, id);
    }
    LadderKeepsPace(b, n, id);
  }

  /** All the backoff ever scheduled for one message comes to at most 615 seconds. */
  lemma LifetimeDelay(c: Config, b: Behavior, n: nat, id: nat)
    requires IsBehavior(c, b) && n < |b.states|
    ensures Scheduled(b, n, id) <= 615.0
  {
    ScheduledIsLadder(c, b, n, id);
    AlwaysSafe(c, b, n);
    Backoff.LadderMonotone(LadderUsed(b.states[n], id), 7);
    Backoff.SevenRetries();
  }
}
