/** The limits of a single message are attained: a run of eight attempts, seven retries and 615 seconds of backoff. */
module DeliveryLimits {
  import opened Options
  import opened Sums
  import opened CircuitBreaking
  import opened DeliveryModel
  import opened DeliverySafety
  import opened DeliveryRuns
  import opened DeliveryScenarios
  import opened DeliveryBounds
  import Backoff

  /** A set of states, with the number of sends of the first message, that contains what runs reach. */
  ghost predicate Explores(c: Config, reach: Reach) {
    ClosedUnderSteps(c, SendsOf(0), reach) && reach(Init(c), 0)
  }

  /** The first worker moves. */
  lemma Move(c: Config, reach: Reach, s: State, k: int, act: Act) returns (t: State)
    requires Explores(c, reach) && reach(s, k) && |s.workers| >= 1 && CanAct(s, s.workers[0], act)
    requires FaultOf(Worker(0, act)).None?
    ensures t == Act1(s, 0, act) && reach(t, if act == BeginSend(0) then k + 1 else k)
  {
    t := Apply(c, s, Worker(0, act));
    assert reach(t, k + SendsOf(0)(Worker(0, act)));
  }

  /** Only the first message is there, in this form; the first worker is at `pc`, the others are idle. */
  ghost predicate OneMessage(c: Config, s: State, row: Row, pc: WorkerPc) {
    && c.workers >= 1 && s.rows == [row] && s.workers == Init(c).workers[0 := pc]
    && s.acceptors == Init(c).acceptors
  }

  /** It may be claimed, by now for the time after `k` attempts, and the breaker lets the worker through. */
  ghost predicate Waits(c: Config, s: State, row: Row, k: nat) {
    && OneMessage(c, s, row, Idle) && row.attempts == k && IsDue(row, s.utc)
    && Poll(s.breaker, s.monotonic).state != Open
  }

  lemma ClaimIt(c: Config, reach: Reach, s: State, row: Row, k: nat) returns (t: State)
    requires Explores(c, reach) && reach(s, k) && Waits(c, s, row, k)
    ensures reach(t, k) && OneMessage(c, t, Claimed(row), Owning(0))
  {
    var s1 := Move(c, reach, s, k, AskCircuit);
    assert OneMessage(c, s1, row, Allowed) && s1.utc == s.utc;
    var s2 := Move(c, reach, s1, k, SelectRow(Some(0)));
    assert OneMessage(c, s2, row, Selected(0));
    t := Move(c, reach, s2, k, Claim(0));
  }

  /** It is sent, and the send fails with a retriable error. */
  lemma SendIt(c: Config, reach: Reach, s: State, row: Row, k: nat) returns (t: State)
    requires Explores(c, reach) && reach(s, k) && OneMessage(c, s, row, Owning(0))
    ensures reach(t, k + 1) && OneMessage(c, t, row, Handling(0, true, false))
  {
    var s1 := Move(c, reach, s, k, EnterFlight(0));
    assert OneMessage(c, s1, row, InFlight(0));
    var s2 := Move(c, reach, s1, k, BeginSend(0));
    assert OneMessage(c, s2, row, Sending(0));
    t := Move(c, reach, s2, k + 1, SendRaises(0, true));
  }

  /** The retry is committed and published. */
  lemma RetryIt(c: Config, reach: Reach, s: State, row: Row, k: nat) returns (t: State)
    requires Explores(c, reach) && reach(s, k) && OneMessage(c, s, row, Handling(0, true, false))
    requires 1 <= row.attempts <= 7
    ensures reach(t, k) && t.rows == [MarkedRetry(row, Backoff.Delay(row.attempts), s.utc)]
    ensures OneMessage(c, t, t.rows[0], Returning(0))
  {
    var after := MarkedRetry(row, Backoff.Delay(row.attempts), s.utc);
    var s1 := Move(c, reach, s, k, MarkRetry(0, Backoff.Delay(row.attempts)));
    assert OneMessage(c, s1, after, OutcomeMarked(0, true));
    t := Move(c, reach, s1, k, PublishOutcome(0, true));
  }

  /** The breaker hears of the failure. */
  lemma TellIt(c: Config, reach: Reach, s: State, row: Row, k: nat) returns (t: State)
    requires Explores(c, reach) && reach(s, k) && OneMessage(c, s, row, Returning(0)) && IsOutcome(row.status)
    ensures reach(t, k) && OneMessage(c, t, row, Idle)
  {
    var s1 := Move(c, reach, s, k, LeaveFlight(0));
    assert OneMessage(c, s1, row, Refreshing(0));
    var s2 := Move(c, reach, s1, k, Refresh(0));
    assert OneMessage(c, s2, row, Observing(row.status));
    t := Move(c, reach, s2, k, Record(row.status));
  }

  function Later(a: real, b: real): real {
    if a <= b then b else a
  }

  /** Time passes until the retry is due and an open breaker has cooled down. */
  lemma WaitForIt(c: Config, reach: Reach, s: State, row: Row, k: nat) returns (t: State)
    requires Explores(c, reach) && reach(s, k) && OneMessage(c, s, row, Idle)
    requires row.status == Retrying && row.retryAt.Some? && row.attempts == k
    ensures reach(t, k) && Waits(c, t, row, k)
  {
    var l := Tick(Later(s.utc, row.retryAt.value), Later(s.monotonic, s.breaker.openedAt + s.breaker.cooldown));
    t := Apply(c, s, l);
    assert reach(t, k + SendsOf(0)(l));
  }

  /** After `k` failed attempts the message waits for the next one. */
  lemma {:induction false} FailTimes(c: Config, reach: Reach, k: nat) returns (t: State, row: Row)
    requires Explores(c, reach) && c.workers >= 1 && k <= 7
    ensures reach(t, k) && Waits(c, t, row, k)
  {
    if k == 0 {
      row := NewRow(0.0);
      var l := SubmitTest(0, 0.0);
      t := Apply(c, Init(c), l);
      assert reach(t, 0 + SendsOf(0)(l));
      assert t.rows == [row] && t.workers == Init(c).workers[0 := Idle];
    } else {
      t, row := FailTimes(c, reach, k - 1);
      t := ClaimIt(c, reach, t, row, k - 1);
      row := Claimed(row);
      t := SendIt(c, reach, t, row, k - 1);
      t := RetryIt(c, reach, t, row, k);
      row := t.rows[0];
      t := TellIt(c, reach, t, row, k);
      t := WaitForIt(c, reach, t, row, k);
    }
  }

  /** The eighth attempt fails like the others, and for good. */
  lemma EightTimes(c: Config, reach: Reach) returns (t: State)
    requires Explores(c, reach) && c.workers >= 1
    ensures reach(t, 8) && |t.rows| == 1 && t.rows[0].status == Failed && t.rows[0].attempts == 8
  {
    var s, row := FailTimes(c, reach, 7);
    s := ClaimIt(c, reach, s, row, 7);
    s := SendIt(c, reach, s, Claimed(row), 7);
    t := Move(c, reach, s, 8, MarkFailed(0));
  }

  /**
   For every configuration with a worker some run claims and sends one message eight times and schedules 615 seconds of
   backoff for it, without anything but its sends raising: the limits of eight and 615 cannot be lowered.
   */
  lemma LimitsAreAttained(c: Config)
    requires c.workers >= 1
    ensures exists b ::
              && IsBehavior(c, b) && OnlyFaults(b, {}) && HasStatus(Last(b), 0, Failed)
              && Tally(b, |b.labels|, ClaimsOf(0)) == 8 && Tally(b, |b.labels|, SendsOf(0)) == 8
              && Scheduled(b, |b.labels|, 0) == 615.0
  {
    RunsAreClosed(c, {}, SendsOf(0));
    var t := EightTimes(c, RunsOf(c, {}, SendsOf(0)));
    var b :| IsBehavior(c, b) && OnlyFaults(b, {}) && Last(b) == t && Sum(b.labels, SendsOf(0)) == 8;
    var n := |b.labels|;
    assert b.labels[..n] == b.labels && b.states[n] == t;
    AttemptsAreClaims(c, b, n, 0);
    ScheduledIsLadder(c, b, n, 0);
    Backoff.SevenRetries();
    assert Tally(b, n, ClaimsOf(0)) == 8 && Tally(b, n, SendsOf(0)) == 8 && Scheduled(b, n, 0) == 615.0;
  }
}
