/** What an exception after a successful send can lead to, and which exceptions can. */
module DeliveryFaults {
  import opened Options
  import opened Sums
  import opened DeliveryModel
  import opened DeliverySafety
  import opened DeliveryRuns
  import opened DeliveryScenarios
  import opened DeliveryTiming
  import Backoff

  /** Every message is sent successfully at most once in all runs that meet none but these faults. */
  ghost predicate SentAtMostOnce(c: Config, faults: set<Fault>) {
    forall b, id: nat :: IsBehavior(c, b) && OnlyFaults(b, faults) ==> Tally(b, |b.labels|, SuccessesOf(id)) <= 1
  }

  /** SENT is final in all runs that meet none but these faults. */
  ghost predicate SentIsFinal(c: Config, faults: set<Fault>) {
    forall b, m: nat, id: nat ::
      IsBehavior(c, b) && OnlyFaults(b, faults) && m < |b.states| && HasStatus(b.states[m], id, Sent) ==>
        HasStatus(Last(b), id, Sent)
  }

  predicate SomeRetriable(faults: set<Fault>) {
    exists fault :: fault in faults && fault.retriable
  }

  predicate SomeAnnouncing(faults: set<Fault>) {
    exists fault :: fault in faults && fault.AnnouncingRaises?
  }

  // ----- runs without the fault -----

  lemma NoRetriableFaults(b: Behavior, faults: set<Fault>, id: nat)
    requires OnlyFaults(b, faults) && !SomeRetriable(faults)
    ensures Tally(b, |b.labels|, RetriableFaultsOf(id)) == 0
  {
    forall l | l in b.labels ensures RetriableFaultsOf(id)(l) == 0 {
      assert FaultOf(l).Some? ==> !FaultOf(l).value.retriable;
    }
    SumZero(b.labels[..|b.labels|], RetriableFaultsOf(id));
  }

  lemma NoAnnouncingFaults(b: Behavior, faults: set<Fault>, id: nat)
    requires OnlyFaults(b, faults) && !SomeAnnouncing(faults)
    ensures Tally(b, |b.labels|, AnnouncementFaultsOf(id)) == 0
  {
    forall l | l in b.labels ensures AnnouncementFaultsOf(id)(l) == 0 {
      assert FaultOf(l).Some? ==> !FaultOf(l).value.AnnouncingRaises?;
    }
    SumZero(b.labels[..|b.labels|], AnnouncementFaultsOf(id));
  }

  lemma NoWorkersNoSends(c: Config, b: Behavior, id: nat)
    requires c.workers == 0 && IsBehavior(c, b)
    ensures Tally(b, |b.labels|, SuccessesOf(id)) == 0
    ensures forall n :: 0 <= n < |b.states| ==> !HasStatus(b.states[n], id, Sent)
  {
    NobodyActs(c, b, |b.labels|);
    SumZero(b.labels[..|b.labels|], SuccessesOf(id));
    forall n | 0 <= n < |b.states| ensures !HasStatus(b.states[n], id, Sent) {
      AttemptsAreClaims(c, b, n, id);
      AlwaysSafe(c, b, n);
      NobodyActs(c, b, n);
      SumZero(b.labels[..n], ClaimsOf(id));
    }
  }

  lemma NobodyActs(c: Config, b: Behavior, n: nat)
    requires c.workers == 0 && IsBehavior(c, b) && n <= |b.labels|
    ensures forall l :: l in b.labels[..n] ==> !l.Worker?
  {
    forall i | 0 <= i < n ensures !b.labels[i].Worker? {
      AlwaysSafe(c, b, i);
    }
  }

  // ----- runs with the fault -----

  /** The first send of a message has returned. */
  lemma SendOnce(c: Config, reach: Reach) returns (t: State)
    requires Explores(c, reach) && c.workers >= 1
    ensures reach(t, 1) && t == At(Init(c), 0, SendDone(0)).(rows := [Claimed(NEW)], counters := t.counters)
  {
    QueueOne(c, reach);
    var s := OneQueued(c);
    ClaimRow(c, SuccessesOf(0), reach, s, 0, 0, 0);
    var s1 := Owned(s, 0, 0);
    StartSend(c, SuccessesOf(0), reach, s1, 0, 0, 0);
    var s2 := Counting(At(s1, 0, Sending(0)), s1.counters.inFlight + 1);
    Go(c, reach, s2, 0, Worker(0, SendReturns(0)));
    t := At(s2, 0, SendDone(0));
    assert Apply(c, s2, Worker(0, SendReturns(0))) == t;
    assert t.rows == [Claimed(NEW)] && t.workers == Init(c).workers[0 := SendDone(0)];
  }

  /** A message is sent and committed as SENT. */
  lemma Deliver(c: Config, reach: Reach) returns (t: State)
    requires Explores(c, reach) && c.workers >= 1
    ensures reach(t, 1) && t == At(Init(c), 0, SentMarked(0)).(rows := [ONE_SENT], counters := t.counters)
  {
    var s := SendOnce(c, reach);
    Go(c, reach, s, 1, Worker(0, MarkSent(0)));
    t := Apply(c, s, Worker(0, MarkSent(0)));
    assert t.rows == [ONE_SENT] && t.workers == Init(c).workers[0 := SentMarked(0)];
  }

  /** What the table shows when the fault is handled. */
  function RowAtFault(fault: Fault): Row {
    if fault.AnnouncingRaises? then ONE_SENT else Claimed(NEW)
  }

  /**
   The fault strikes. Committing SENT can fail with a retriable text when the database closes the connection ("server
   closed the connection unexpectedly"). After the commit the row is expired, so that naming it in the log line or in the
   event loads it again, which can fail with one when the pool is exhausted ("connection timed out").
   */
  lemma Strike(c: Config, reach: Reach, fault: Fault) returns (t: State)
    requires Explores(c, reach) && Admits(c, SuccessesOf(0), reach, fault) && c.workers >= 1
    ensures reach(t, 1)
    ensures t == At(Init(c), 0, Handling(0, fault.retriable, fault.AnnouncingRaises?))
                 .(rows := [RowAtFault(fault)], counters := t.counters)
  {
    if fault.AnnouncingRaises? {
      var s := Deliver(c, reach);
      var l := Worker(0, PublishSentRaises(0, false, fault.retriable));
      assert FaultOf(l) == Some(fault);
      t := Apply(c, s, l);
      assert reach(t, 1 + SuccessesOf(0)(l));
      assert t.workers == s.workers[0 := Handling(0, fault.retriable, true)];
    } else {
      var s := SendOnce(c, reach);
      var l := Worker(0, MarkSentRaises(0, fault.retriable));
      assert FaultOf(l) == Some(fault);
      t := Apply(c, s, l);
      assert reach(t, 1 + SuccessesOf(0)(l));
      assert t.workers == s.workers[0 := Handling(0, fault.retriable, false)];
    }
  }

  /** The handler reschedules the delivered message. */
  lemma TakeBack(c: Config, s: State, fault: Fault)
    requires c.workers >= 1 && fault.retriable
    requires s == At(Init(c), 0, Handling(0, true, fault.AnnouncingRaises?)).(rows := [RowAtFault(fault)], counters := s.counters)
    ensures Enabled(c, s, Worker(0, MarkRetry(0, 5.0)))
    ensures Apply(c, s, Worker(0, MarkRetry(0, 5.0))) == At(s, 0, OutcomeMarked(0, true)).(rows := [ONE_RETRYING])
  {
    assert Backoff.Delay(1) == 5.0;
  }

  /** The worker gets back to its loop without recording anything. */
  lemma GiveUpRefresh(c: Config, reach: Reach, s: State) returns (t: State)
    requires Explores(c, reach) && reach(s, 1)
    requires |s.workers| >= 1 && s.workers[0] == OutcomeMarked(0, true)
    ensures reach(t, 1) && t == At(s, 0, Idle).(counters := t.counters)
  {
    var s1 := PublishAndLeave(c, reach, s, 1, 0);
    t := At(s, 0, Idle).(counters := s1.counters);
    Go(c, reach, s1, 1, Worker(0, RefreshRaises(0)));
    assert Apply(c, s1, Worker(0, RefreshRaises(0))) == t;
  }

  /** The message waits for its retry, and five seconds pass. */
  lemma Wait(c: Config, reach: Reach, fault: Fault) returns (t: State)
    requires Explores(c, reach) && Admits(c, SuccessesOf(0), reach, fault) && fault.retriable && c.workers >= 1
    ensures reach(t, 1)
    ensures t == Init(c).(rows := [ONE_RETRYING], counters := t.counters, utc := 5.0, monotonic := 5.0)
  {
    var s := Strike(c, reach, fault);
    TakeBack(c, s, fault);
    Go(c, reach, s, 1, Worker(0, MarkRetry(0, 5.0)));
    var s1 := At(s, 0, OutcomeMarked(0, true)).(rows := [ONE_RETRYING]);
    var s2 := GiveUpRefresh(c, reach, s1);
    assert s2.workers == Init(c).workers;
    Go(c, reach, s2, 1, Tick(5.0, 5.0));
    t := Apply(c, s2, Tick(5.0, 5.0));
  }

  /** The delivered message is delivered again. */
  lemma DeliverAgain(c: Config, reach: Reach, fault: Fault) returns (t: State)
    requires Explores(c, reach) && Admits(c, SuccessesOf(0), reach, fault) && fault.retriable && c.workers >= 1
    ensures reach(t, 2)
  {
    var s := Wait(c, reach, fault);
    ClaimRow(c, SuccessesOf(0), reach, s, 1, 0, 0);
    var s1 := Owned(s, 0, 0);
    StartSend(c, SuccessesOf(0), reach, s1, 1, 0, 0);
    var s2 := Counting(At(s1, 0, Sending(0)), s1.counters.inFlight + 1);
    Go(c, reach, s2, 1, Worker(0, SendReturns(0)));
    t := Apply(c, s2, Worker(0, SendReturns(0)));
  }

  lemma SomeRunSendsTwice(c: Config, faults: set<Fault>, fault: Fault)
    requires fault in faults && fault.retriable && c.workers >= 1
    ensures !SentAtMostOnce(c, faults)
  {
    RunsExplore(c, faults);
    var s := DeliverAgain(c, RunsOf(c, faults, SuccessesOf(0)), fault);
    var b :| IsBehavior(c, b) && OnlyFaults(b, faults) && Last(b) == s && Sum(b.labels, SuccessesOf(0)) == 2;
    assert b.labels[..|b.labels|] == b.labels;
    assert !(Tally(b, |b.labels|, SuccessesOf(0)) <= 1);
  }

  /** A delivery whose announcement raised is rescheduled or given up for failed, and reads SENT no longer. */
  lemma SomeRunUnsends(c: Config, faults: set<Fault>, fault: Fault)
    requires fault in faults && fault.AnnouncingRaises? && c.workers >= 1
    ensures !SentIsFinal(c, faults)
  {
    RunsExplore(c, faults);
    var s := Strike(c, RunsOf(c, faults, SuccessesOf(0)), fault);
    assert Backoff.Delay(1) == 5.0;
    var l := Worker(0, if fault.retriable then MarkRetry(0, 5.0) else MarkFailed(0));
    var b, m := RunInto(c, faults, s, 1, l);
    assert HasStatus(b.states[m], 0, Sent) && !HasStatus(Last(b), 0, Sent);
  }

  // ----- the exact conditions -----

  /**
   Which exceptions after a successful send are harmless. No message is ever delivered twice if and only if none of the
   errors met there reads as retriable: the guard of the branch that reschedules. Marking or announcing may raise anything
   else as often as it likes.
   */
  lemma SentAtMostOnceIff(c: Config, faults: set<Fault>)
    ensures SentAtMostOnce(c, faults) <==> !SomeRetriable(faults) || c.workers == 0
  {
    if !SomeRetriable(faults) {
      forall b, id: nat | IsBehavior(c, b) && OnlyFaults(b, faults)
        ensures Tally(b, |b.labels|, SuccessesOf(id)) <= 1
      {
        NoRetriableFaults(b, faults, id);
        SuccessBound(c, b, |b.labels|, id);
      }
    } else if c.workers == 0 {
      forall b, id: nat | IsBehavior(c, b) && OnlyFaults(b, faults)
        ensures Tally(b, |b.labels|, SuccessesOf(id)) <= 1
      {
        NoWorkersNoSends(c, b, id);
      }
    } else {
      var fault :| fault in faults && fault.retriable;
      SomeRunSendsTwice(c, faults, fault);
    }
  }

  /** SENT is final if and only if nothing raises between its commit and the end of its announcement; committing it may. */
  lemma SentIsFinalIff(c: Config, faults: set<Fault>)
    ensures SentIsFinal(c, faults) <==> !SomeAnnouncing(faults) || c.workers == 0
  {
    if !SomeAnnouncing(faults) {
      forall b, m: nat, id: nat
        | IsBehavior(c, b) && OnlyFaults(b, faults) && m < |b.states| && HasStatus(b.states[m], id, Sent)
        ensures HasStatus(Last(b), id, Sent)
      {
        NoAnnouncingFaults(b, faults, id);
        SentStays(c, b, m, |b.labels|, id);
      }
    } else if c.workers == 0 {
      forall b, m: nat, id: nat | IsBehavior(c, b) && m < |b.states|
        ensures !HasStatus(b.states[m], id, Sent)
      {
        NoWorkersNoSends(c, b, id);
      }
    } else {
      var fault :| fault in faults && fault.AnnouncingRaises?;
      SomeRunUnsends(c, faults, fault);
    }
  }
}
