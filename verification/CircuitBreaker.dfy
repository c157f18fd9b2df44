/** The outbound circuit breaker (src/msgate/queue/circuit_breaker.py). */
module CircuitBreaking {

  datatype CircuitState = Closed | Open | HalfOpen

  /** The fields of a breaker, as a value. */
  datatype Breaker = Breaker(threshold: int, cooldown: real, failures: nat, openedAt: real, state: CircuitState)

  function NewBreaker(threshold: int, cooldown: real): Breaker {
    Breaker(threshold, cooldown, 0, 0.0, Closed)
  }

  /** What `state` and `allow` do before they look: an opening that has cooled down becomes half-open. */
  function Poll(b: Breaker, now: real): Breaker {
    if b.state == Open && now - b.openedAt >= b.cooldown then b.(state := HalfOpen) else b
  }

  function Succeed(b: Breaker): Breaker {
    b.(failures := 0, state := Closed, openedAt := 0.0)
  }

  function Fail(b: Breaker, now: real): Breaker {
    var counted := b.(failures := b.failures + 1);
    if counted.failures >= b.threshold then counted.(state := Open, openedAt := now) else counted
  }

  // ----- what the breaker means: a function of the recorded outcomes and of the time -----

  datatype Outcome = Success | Failure(at: real)

  /** How many failures have been recorded since the last success. */
  ghost function Streak(outcomes: seq<Outcome>): nat {
    if outcomes == [] || outcomes[|outcomes| - 1].Success? then 0
    else 1 + Streak(outcomes[..|outcomes| - 1])
  }

  ghost function Observed(outcomes: seq<Outcome>, threshold: int, cooldown: real, now: real): CircuitState {
    if Streak(outcomes) == 0 || Streak(outcomes) < threshold then Closed
    else if now - outcomes[|outcomes| - 1].at < cooldown then Open
    else HalfOpen
  }

  /** The breaker's fields agree with the outcomes recorded so far; `now` is the latest clock reading. */
  ghost predicate Agrees(b: Breaker, outcomes: seq<Outcome>, now: real) {
    && b.failures == Streak(outcomes)
    && (b.state == Closed <==> Streak(outcomes) == 0 || Streak(outcomes) < b.threshold)
    && (b.state != Closed ==> b.openedAt == outcomes[|outcomes| - 1].at)
    && (b.state == HalfOpen ==> now - b.openedAt >= b.cooldown)
  }

  lemma AgreesNew(threshold: int, cooldown: real, now: real)
    ensures Agrees(NewBreaker(threshold, cooldown), [], now)
  {
  }

  lemma AgreesPoll(b: Breaker, outcomes: seq<Outcome>, before: real, now: real)
    requires Agrees(b, outcomes, before) && before <= now
    ensures Agrees(Poll(b, now), outcomes, now)
    ensures Poll(b, now).state == Observed(outcomes, b.threshold, b.cooldown, now)
  {
  }

  lemma AgreesSucceed(b: Breaker, outcomes: seq<Outcome>, before: real, now: real)
    requires Agrees(b, outcomes, before) && before <= now
    ensures Agrees(Succeed(b), outcomes + [Success], now)
  {
  }

  lemma AgreesFail(b: Breaker, outcomes: seq<Outcome>, before: real, now: real)
    requires Agrees(b, outcomes, before) && before <= now
    ensures Agrees(Fail(b, now), outcomes + [Failure(now)], now)
  {
    assert (outcomes + [Failure(now)])[..|outcomes|] == outcomes;
  }

  // ----- runs of calls -----

  datatype Call = PollAt(t: real) | SuccessAt(t: real) | FailureAt(t: real)

  function After(b: Breaker, calls: seq<Call>): Breaker {
    if calls == [] then b
    else
      var before := After(b, calls[..|calls| - 1]);
      match calls[|calls| - 1]
      case PollAt(t) => Poll(before, t)
      case SuccessAt(t) => Succeed(before)
      case FailureAt(t) => Fail(before, t)
  }

  /** The outcomes among the calls: polling leaves no trace. */
  function Outcomes(calls: seq<Call>): seq<Outcome> {
    if calls == [] then []
    else
      Outcomes(calls[..|calls| - 1]) +
      match calls[|calls| - 1]
      case PollAt(_) => []
      case SuccessAt(_) => [Success]
      case FailureAt(t) => [Failure(t)]
  }

  ghost predicate NonDecreasing(calls: seq<Call>) {
    forall i, j :: 0 <= i < j < |calls| ==> calls[i].t <= calls[j].t
  }

  /**
   After any calls at non-decreasing times, what a caller observes depends on the recorded outcomes and the
   time only. As polls add no outcome, `state` and `allow` never change what a later observation sees.
   */
  lemma {:induction false} ObservationIsHistory(threshold: int, cooldown: real, calls: seq<Call>, now: real)
    requires NonDecreasing(calls)
    requires calls != [] ==> calls[|calls| - 1].t <= now
    ensures Poll(After(NewBreaker(threshold, cooldown), calls), now).state
            == Observed(Outcomes(calls), threshold, cooldown, now)
  {
    var before := if calls == [] then now else calls[|calls| - 1].t;
    AfterAgrees(threshold, cooldown, calls, before);
    AgreesPoll(After(NewBreaker(threshold, cooldown), calls), Outcomes(calls), before, now);
  }

  lemma {:induction false} AfterAgrees(threshold: int, cooldown: real, calls: seq<Call>, now: real)
    requires NonDecreasing(calls)
    requires calls != [] ==> calls[|calls| - 1].t <= now
    ensures Agrees(After(NewBreaker(threshold, cooldown), calls), Outcomes(calls), now)
    ensures After(NewBreaker(threshold, cooldown), calls).threshold == threshold
    ensures After(NewBreaker(threshold, cooldown), calls).cooldown == cooldown
  {
    if calls == [] {
      AgreesNew(threshold, cooldown, now);
    } else {
      var n := |calls| - 1;
      var t := calls[n].t;
      AfterAgrees(threshold, cooldown, calls[..n], t);
      var b := After(NewBreaker(threshold, cooldown), calls[..n]);
      var outcomes := Outcomes(calls[..n]);
      match calls[n] {
        case PollAt(_) =>
          AgreesPoll(b, outcomes, t, t);
          assert outcomes + [] == outcomes;
        case SuccessAt(_) => AgreesSucceed(b, outcomes, t, t);
        case FailureAt(_) => AgreesFail(b, outcomes, t, t);
      }
    }
  }

  /** One failure is enough to reopen a half-open breaker, whatever the threshold: the streak is kept. */
  lemma {:induction false} HalfOpenReopens(threshold: int, cooldown: real, calls: seq<Call>, now: real)
    requires NonDecreasing(calls) && cooldown > 0.0
    requires calls != [] ==> calls[|calls| - 1].t <= now
    requires Observed(Outcomes(calls), threshold, cooldown, now) == HalfOpen
    ensures Observed(Outcomes(calls + [FailureAt(now)]), threshold, cooldown, now) == Open
  {
    assert (calls + [FailureAt(now)])[..|calls|] == calls;
    assert (Outcomes(calls) + [Failure(now)])[..|Outcomes(calls)|] == Outcomes(calls);
  }

  /** Failures in a row at one time keep a closed breaker closed up to the threshold, and the one that reaches it opens it. */
  lemma {:induction false} FailuresInARow(before: seq<Outcome>, told: seq<Outcome>, threshold: int, cooldown: real, now: real)
    requires Streak(before) < threshold && cooldown > 0.0
    requires forall k :: 0 <= k < |told| ==> told[k] == Failure(now)
    ensures Streak(before + told) == Streak(before) + |told|
    ensures Observed(before + told, threshold, cooldown, now) == if Streak(before) + |told| >= threshold then Open else Closed
  {
    if told == [] {
      assert before + told == before;
    } else {
      var n := |told| - 1;
      FailuresInARow(before, told[..n], threshold, cooldown, now);
      assert (before + told)[..|before| + n] == before + told[..n];
      assert (before + told)[|before| + n] == told[n];
    }
  }

  // ----- the object -----

  class CircuitBreaker {
    const failureThreshold: int
    const cooldownSeconds: real
    var failures: nat
    var openedAt: real
    var state: CircuitState

    /** Everything recorded so far, and the latest reading of the monotonic clock. */
    ghost var outcomes: seq<Outcome>
    ghost var clock: real

    ghost function View(): Breaker
      reads this
    {
      Breaker(failureThreshold, cooldownSeconds, failures, openedAt, state)
    }

    ghost predicate Valid()
      reads this
    {
      Agrees(View(), outcomes, clock)
    }

    constructor (threshold: int, cooldown: real)
      ensures Valid() && View() == NewBreaker(threshold, cooldown) && outcomes == []
      ensures failureThreshold == threshold && cooldownSeconds == cooldown && clock == 0.0
    {
      failureThreshold, cooldownSeconds := threshold, cooldown;
      failures, openedAt, state := 0, 0.0, Closed;
      outcomes, clock := [], 0.0;
    }

    /** `_maybe_half_open_unlocked` */
    method MaybeHalfOpen(now: real)
      requires Valid() && clock <= now
      modifies this`state, this`clock
      ensures Valid() && clock == now && View() == Poll(old(View()), now)
      ensures state == Observed(outcomes, failureThreshold, cooldownSeconds, now)
    {
      AgreesPoll(View(), outcomes, clock, now);
      if state == Open {
        if now - openedAt >= cooldownSeconds {
          state := HalfOpen;
        }
      }
      clock := now;
    }

    method ReadState(now: real) returns (s: CircuitState)
      requires Valid() && clock <= now
      modifies this`state, this`clock
      ensures Valid() && clock == now && View() == Poll(old(View()), now)
      ensures s == state == Observed(outcomes, failureThreshold, cooldownSeconds, now)
    {
      MaybeHalfOpen(now);
      s := state;
    }

    method Allow(now: real) returns (allowed: bool)
      requires Valid() && clock <= now
      modifies this`state, this`clock
      ensures Valid() && clock == now && View() == Poll(old(View()), now)
      ensures allowed == (Observed(outcomes, failureThreshold, cooldownSeconds, now) != Open)
      ensures allowed == (state != Open)
    {
      MaybeHalfOpen(now);
      allowed := state != Open;
    }

    method RecordSuccess(now: real)
      requires Valid() && clock <= now
      modifies this
      ensures Valid() && clock == now && View() == Succeed(old(View()))
      ensures outcomes == old(outcomes) + [Success]
    {
      AgreesSucceed(View(), outcomes, clock, now);
      failures := 0;
      state := Closed;
      openedAt := 0.0;
      outcomes, clock := outcomes + [Success], now;
    }

    method RecordFailure(now: real)
      requires Valid() && clock <= now
      modifies this
      ensures Valid() && clock == now && View() == Fail(old(View()), now)
      ensures outcomes == old(outcomes) + [Failure(now)]
    {
      AgreesFail(View(), outcomes, clock, now);
      failures := failures + 1;
      if failures >= failureThreshold {
        state := Open;
        openedAt := now;
      }
      outcomes, clock := outcomes + [Failure(now)], now;
    }
  }
}
