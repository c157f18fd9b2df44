/** Promises that hold for one worker and fail for two. */
module DeliveryTiming {
  import opened Options
  import opened Sums
  import opened DeliveryModel
  import opened DeliverySafety
  import opened DeliveryRuns
  import opened DeliveryScenarios
  import Backoff

  // ----- claims and due times -----

  /** No run of this configuration claims a message before its retry time. */
  ghost predicate ClaimsAreDue(c: Config) {
    forall b, i, w, id: nat ::
      IsBehavior(c, b) && 0 <= i < |b.labels| && b.labels[i] == Worker(w, Claim(id)) ==>
        id < |b.states[i].rows| && IsDue(b.states[i].rows[id], b.states[i].utc)
  }

  /** In no run does the refresh after `process_row` find the row already claimed again. */
  ghost predicate RefreshesSeeOutcomes(c: Config) {
    forall b, i, w, id: nat ::
      IsBehavior(c, b) && 0 <= i < |b.labels| && b.labels[i] == Worker(w, Refresh(id)) ==>
        ShowsOutcome(b.states[i], id)
  }

  predicate ShowsOutcome(s: State, id: nat) {
    id < |s.rows| && IsOutcome(s.rows[id].status)
  }

  /** With one worker, what it has read or committed about a row is still so. */
  ghost predicate Current(s: State) {
    forall w :: 0 <= w < |s.workers| ==>
      var pc := s.workers[w];
      && (pc.Selected? ==> pc.id < |s.rows| && IsDue(s.rows[pc.id], s.utc))
      && (pc.OutcomeMarked? || pc.Returning? || pc.Refreshing? ==> ShowsOutcome(s, pc.id))
      && (pc.Observing? ==> IsOutcome(pc.status))
  }

  lemma ActKeepsCurrent(c: Config, s: State, act: Act)
    requires c.workers == 1 && Safe(c, s) && Current(s) && CanAct(s, s.workers[0], act)
    ensures Current(Act1(s, 0, act))
  {
    assert PcFits(s.workers[0], s.rows);
    assert Act1(s, 0, act).workers == [NextPc(s, s.workers[0], act)];
  }

  lemma StepKeepsCurrent(c: Config, s: State, l: Label)
    requires c.workers <= 1 && Safe(c, s) && Current(s) && Enabled(c, s, l)
    ensures Current(Apply(c, s, l))
  {
    if l.Worker? {
      ActKeepsCurrent(c, s, l.act);
    }
  }

  lemma {:induction false} AlwaysCurrent(c: Config, b: Behavior, n: nat)
    requires c.workers <= 1 && IsBehavior(c, b) && n < |b.states|
    ensures Current(b.states[n])
  {
    if n > 0 {
      AlwaysCurrent(c, b, n - 1);
      AlwaysSafe(c, b, n - 1);
      StepKeepsCurrent(c, b.states[n - 1], b.labels[n - 1]);
    }
  }

  /** A set of states, with the number of successful sends of the first message, that contains what runs reach. */
  ghost predicate Explores(c: Config, reach: Reach) {
    ClosedUnderSteps(c, SuccessesOf(0), reach) && Quiet(SuccessesOf(0)) && reach(Init(c), 0)
  }

  lemma RunsExplore(c: Config, faults: set<Fault>)
    ensures Explores(c, RunsOf(c, faults, SuccessesOf(0)))
    ensures forall fault :: fault in faults ==> Admits(c, SuccessesOf(0), RunsOf(c, faults, SuccessesOf(0)), fault)
  {
    RunsAreClosed(c, faults, SuccessesOf(0));
  }

  lemma Go(c: Config, reach: Reach, s: State, k: int, l: Label)
    requires Explores(c, reach) && reach(s, k) && Enabled(c, s, l) && FaultOf(l).None?
    ensures reach(Apply(c, s, l), k + SuccessesOf(0)(l))
  {
  }

  /** A run ending in `s`, and one more step. */
  lemma RunInto(c: Config, faults: set<Fault>, s: State, k: int, l: Label) returns (b: Behavior, n: nat)
    requires RunsOf(c, faults, SuccessesOf(0))(s, k) && Enabled(c, s, l) && FaultOf(l).None?
    ensures IsBehavior(c, b) && n < |b.labels| && b.labels[n] == l && b.states[n] == s && Last(b) == Apply(c, s, l)
    ensures OnlyFaults(b, faults)
  {
    var a :| IsBehavior(c, a) && OnlyFaults(a, faults) && Last(a) == s && Sum(a.labels, SuccessesOf(0)) == k;
    ExtendIsSegment(c, a, l);
    b, n := Extend(c, a, l), |a.labels|;
  }

  const NEW: Row := NewRow(0.0)
  const ONE_SENT: Row := Row(Sent, 1, None, 0.0)
  const ONE_RETRYING: Row := Row(Retrying, 1, Some(5.0), 0.0)

  /** A single message has just been queued. */
  ghost function OneQueued(c: Config): State {
    Init(c).(rows := [NEW])
  }

  lemma QueueOne(c: Config, reach: Reach)
    requires Explores(c, reach)
    ensures reach(OneQueued(c), 0)
  {
    Go(c, reach, Init(c), 0, SubmitTest(0, 0.0));
    assert Init(c).rows + [NEW] == [NEW];
  }

  /** The first worker has selected the only row. */
  lemma SelectOne(c: Config, reach: Reach)
    requires Explores(c, reach) && c.workers >= 2
    ensures reach(At(OneQueued(c), 0, Selected(0)), 0)
  {
    QueueOne(c, reach);
    var s := OneQueued(c);
    Go(c, reach, s, 0, Worker(0, AskCircuit));
    var s1 := At(s, 0, Allowed);
    assert Apply(c, s, Worker(0, AskCircuit)) == s1;
    Go(c, reach, s1, 0, Worker(0, SelectRow(Some(0))));
    assert Apply(c, s1, Worker(0, SelectRow(Some(0)))) == At(s, 0, Selected(0));
  }

  /** The second worker selects it too, claims it, fails and reschedules it before the first one's UPDATE. */
  lemma StaleSelect(c: Config, reach: Reach) returns (t: State)
    requires Explores(c, reach)
    requires c.workers >= 2
    ensures reach(t, 0) && |t.workers| == c.workers
    ensures t.workers[0] == Selected(0) && t.workers[1] == OutcomeMarked(0, true)
    ensures t.rows == [ONE_RETRYING] && t.utc == 0.0
  {
    SelectOne(c, reach);
    var s := At(OneQueued(c), 0, Selected(0));
    ClaimRow(c, SuccessesOf(0), reach, s, 0, 1, 0);
    var s1 := Owned(s, 1, 0);
    FailSend(c, SuccessesOf(0), reach, s1, 0, 1, 0);
    var s2 := Counting(At(s1, 1, Handling(0, true, false)), s1.counters.inFlight + 1);
    t := Rescheduled(c, reach, s2);
  }

  lemma Rescheduled(c: Config, reach: Reach, s: State) returns (t: State)
    requires Explores(c, reach) && reach(s, 0)
    requires |s.workers| >= 2 && s.workers[1] == Handling(0, true, false)
    requires s.rows == [Claimed(NEW)] && s.utc == 0.0
    ensures reach(t, 0) && t == At(s, 1, OutcomeMarked(0, true)).(rows := [ONE_RETRYING])
  {
    assert Backoff.Delay(1) == 5.0;
    Go(c, reach, s, 0, Worker(1, MarkRetry(0, 5.0)));
    t := Apply(c, s, Worker(1, MarkRetry(0, 5.0)));
  }

  /** The UPDATE checks the status again but not the retry time: claims respect due times for one worker and no more. */
  lemma ClaimsAreDueIff(c: Config)
    ensures ClaimsAreDue(c) <==> c.workers <= 1
  {
    if c.workers <= 1 {
      forall b, i, w, id: nat | IsBehavior(c, b) && 0 <= i < |b.labels| && b.labels[i] == Worker(w, Claim(id))
        ensures id < |b.states[i].rows| && IsDue(b.states[i].rows[id], b.states[i].utc)
      {
        AlwaysCurrent(c, b, i);
        AlwaysSafe(c, b, i);
      }
    } else {
      RunsExplore(c, {});
      var s := StaleSelect(c, RunsOf(c, {}, SuccessesOf(0)));
      var b, n := RunInto(c, {}, s, 0, Worker(0, Claim(0)));
      assert b.labels[n] == Worker(0, Claim(0)) && !IsDue(b.states[n].rows[0], b.states[n].utc);
    }
  }

  /** Worker `w` announces that it has rescheduled the message. */
  lemma PublishRetry(c: Config, reach: Reach, s: State, k: int, w: nat) returns (t: State)
    requires Explores(c, reach) && reach(s, k) && w < |s.workers| && s.workers[w] == OutcomeMarked(0, true)
    ensures reach(t, k) && t == At(s, w, Returning(0)).(counters := t.counters)
  {
    Go(c, reach, s, k, Worker(w, PublishOutcome(0, true)));
    t := Apply(c, s, Worker(w, PublishOutcome(0, true)));
  }

  lemma PublishAndLeave(c: Config, reach: Reach, s: State, k: int, w: nat) returns (t: State)
    requires Explores(c, reach) && reach(s, k) && w < |s.workers| && s.workers[w] == OutcomeMarked(0, true)
    ensures reach(t, k) && t == At(s, w, Refreshing(0)).(counters := t.counters)
  {
    var s1 := PublishRetry(c, reach, s, k, w);
    Go(c, reach, s1, k, Worker(w, LeaveFlight(0)));
    t := Apply(c, s1, Worker(w, LeaveFlight(0)));
    assert s1.workers[w := Refreshing(0)] == s.workers[w := Refreshing(0)];
  }

  /** The first worker claims the row again before the second one reads its outcome back. */
  lemma StaleRefresh(c: Config, reach: Reach) returns (t: State)
    requires Explores(c, reach)
    requires c.workers >= 2
    ensures reach(t, 0)
    ensures |t.workers| == c.workers && t.workers[1] == Refreshing(0)
    ensures |t.rows| == 1 && t.rows[0].status == Processing
  {
    var s := StaleSelect(c, reach);
    Go(c, reach, s, 0, Worker(0, Claim(0)));
    var s1 := Apply(c, s, Worker(0, Claim(0)));
    assert s1 == Owned(s, 0, 0) && s1.workers[1] == OutcomeMarked(0, true);
    t := PublishAndLeave(c, reach, s1, 0, 1);
  }

  /** Every refresh that is made after `process_row` sees an outcome with one worker; with two it may see another claim. */
  lemma RefreshesSeeOutcomesIff(c: Config)
    ensures RefreshesSeeOutcomes(c) <==> c.workers <= 1
  {
    if c.workers <= 1 {
      forall b, i, w, id: nat | IsBehavior(c, b) && 0 <= i < |b.labels| && b.labels[i] == Worker(w, Refresh(id))
        ensures ShowsOutcome(b.states[i], id)
      {
        OwnOutcome(c, b, i, w, id);
      }
    } else {
      var b, n := RefreshMeetsClaim(c);
      assert b.labels[n] == Worker(1, Refresh(0));
    }
  }

  lemma RefreshMeetsClaim(c: Config) returns (b: Behavior, n: nat)
    requires c.workers >= 2
    ensures IsBehavior(c, b) && n < |b.labels| && b.labels[n] == Worker(1, Refresh(0)) && !ShowsOutcome(b.states[n], 0)
  {
    RunsExplore(c, {});
    var s := StaleRefresh(c, RunsOf(c, {}, SuccessesOf(0)));
    assert Enabled(c, s, Worker(1, Refresh(0)));
    b, n := RunInto(c, {}, s, 0, Worker(1, Refresh(0)));
  }

  lemma OwnOutcome(c: Config, b: Behavior, i: nat, w: nat, id: nat)
    requires c.workers <= 1 && IsBehavior(c, b) && i < |b.labels| && b.labels[i] == Worker(w, Refresh(id))
    ensures ShowsOutcome(b.states[i], id)
  {
    AlwaysCurrent(c, b, i);
    assert b.states[i].workers[w] == Refreshing(id);
  }

  /** In no run is an outcome read back too late for the breaker to hear of it. */
  ghost predicate OutcomesAreHeard(c: Config) {
    forall b :: IsBehavior(c, b) ==> Tally(b, |b.labels|, Unheard()) == 0
  }

  lemma {:induction false} OneWorkerIsHeard(c: Config, b: Behavior, n: nat)
    requires c.workers <= 1 && IsBehavior(c, b) && n <= |b.labels|
    ensures Tally(b, n, Unheard()) == 0
  {
    if n > 0 {
      OneWorkerIsHeard(c, b, n - 1);
      AlwaysCurrent(c, b, n - 1);
      TallyStep(b, n - 1, Unheard());
    }
  }

  /**
   With one worker the breaker hears of every committed outcome, except when announcing it or reading it back raises or a
   worker is still on its way (`HearingLedger` has the equation); with two or more, some run loses one for good.
   */
  lemma OutcomesAreHeardIff(c: Config)
    ensures OutcomesAreHeard(c) <==> c.workers <= 1
  {
    if c.workers <= 1 {
      forall b | IsBehavior(c, b) ensures Tally(b, |b.labels|, Unheard()) == 0 {
        OneWorkerIsHeard(c, b, |b.labels|);
      }
    } else {
      var b, n := TooLate(c);
      TallyStep(b, n, Unheard());
      TallyMonotone(b, 0, n, Unheard());
      TallyMonotone(b, n + 1, |b.labels|, Unheard());
      assert !(Tally(b, |b.labels|, Unheard()) == 0);
    }
  }

  lemma TooLate(c: Config) returns (b: Behavior, n: nat)
    requires c.workers >= 2
    ensures IsBehavior(c, b) && n < |b.labels| && b.labels[n] == Worker(1, Record(Processing))
  {
    RunsExplore(c, {});
    var s := StaleRefresh(c, RunsOf(c, {}, SuccessesOf(0)));
    Go(c, RunsOf(c, {}, SuccessesOf(0)), s, 0, Worker(1, Refresh(0)));
    var s1 := Apply(c, s, Worker(1, Refresh(0)));
    b, n := RunInto(c, {}, s1, 0, Worker(1, Record(Processing)));
  }

  /** The row still waits for the time it was given, or that time has come. */
  ghost predicate WaitsUntil(s: State, id: nat, due: real) {
    s.utc >= due || (id < |s.rows| && s.rows[id].status == Retrying && s.rows[id].retryAt == Some(due))
  }

  lemma StepKeepsWaiting(c: Config, s: State, l: Label, id: nat, due: real)
    requires c.workers <= 1 && Safe(c, s) && Current(s) && Enabled(c, s, l) && WaitsUntil(s, id, due)
    ensures WaitsUntil(Apply(c, s, l), id, due)
    ensures l.Worker? && l.act == Claim(id) ==> s.utc >= due
  {
    if l.Worker? {
      assert PcFits(s.workers[l.w], s.rows);
    }
  }

  lemma {:induction false} KeepsWaiting(c: Config, b: Behavior, m: nat, n: nat, id: nat, due: real)
    requires c.workers <= 1 && IsBehavior(c, b) && m <= n < |b.states|
    requires WaitsUntil(b.states[m], id, due)
    ensures WaitsUntil(b.states[n], id, due)
  {
    if m < n {
      KeepsWaiting(c, b, m, n - 1, id, due);
      AlwaysCurrent(c, b, n - 1);
      AlwaysSafe(c, b, n - 1);
      StepKeepsWaiting(c, b.states[n - 1], b.labels[n - 1], id, due);
    }
  }

  /** With one worker every claim of a message comes at least the scheduled backoff after each earlier retry of it. */
  lemma BackoffIsRespected(c: Config, b: Behavior, m: nat, n: nat, id: nat, delay: real)
    requires c.workers <= 1 && IsBehavior(c, b) && m < n < |b.labels|
    requires b.labels[m] == Worker(0, MarkRetry(id, delay)) && b.labels[n] == Worker(0, Claim(id))
    ensures b.states[n].utc >= b.states[m].utc + delay
  {
    var due := b.states[m].utc + delay;
    assert WaitsUntil(b.states[m + 1], id, due);
    KeepsWaiting(c, b, m + 1, n, id, due);
    AlwaysCurrent(c, b, n);
    AlwaysSafe(c, b, n);
    StepKeepsWaiting(c, b.states[n], b.labels[n], id, due);
  }
}
