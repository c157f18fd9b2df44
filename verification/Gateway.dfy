/**
 The objects of one process wired together: the acceptor side (src/msgate/smtp/handler.py, src/msgate/queue/service.py)
 and the worker loop (src/msgate/queue/worker.py, src/msgate/queue/processor.py).

 Every statement that touches shared state is matched by the step of the transition system it stands for, so whatever is
 proved about all runs of the transition system holds of these methods.
 */
module Gateway {
  import opened Options
  import opened Sums
  import opened CircuitBreaking
  import opened DeliveryModel
  import opened DeliverySafety
  import opened DeliveryRuns
  import opened Metrics
  import opened Repository
  import Backoff

  /** What the send call does. */
  datatype SendOutcome = SendOk | SendFailed(retriable: bool)

  /** Where `claim_next` raises, if it does: at the SELECT, at the UPDATE, or reloading the row after the commit. */
  datatype ClaimTrouble = ClaimWorks | SelectRaises | UpdateRaises | ReloadRaises

  /** An exception while a delivery is announced: after its event was counted or before, and how its text reads. */
  datatype Raise = Raise(counted: bool, retriable: bool)

  /** Everything of the gateway's own that raises in one turn of the worker loop. */
  datatype Trouble = Trouble(
    claim: ClaimTrouble,
    marking: Option<bool>,       // committing SENT raises; whether the error reads as retriable
    announcing: Option<Raise>,   // logging or publishing the delivery raises
    outcome: bool,               // committing RETRYING or FAILED raises
    outcomeEvent: Option<bool>,  // publishing that raises; whether the event was counted before
    refresh: bool)               // reading the row back raises

  /** What one turn of the worker loop meets: the stop flag, the clocks, the configuration, the send, and what raises. */
  datatype Turn = Turn(
    stop: bool, idle: real, configured: bool, decodes: bool, send: SendOutcome, duration: real, trouble: Trouble)

  predicate Possible(turn: Turn) {
    turn.idle >= 0.0 && turn.duration >= 0.0
  }

  /** What the `except` block makes of a row. */
  function Handled(row: Row, retriable: bool, trouble: Trouble, now: real): Row {
    if trouble.outcome then row
    else if retriable && row.attempts < MAX_ATTEMPTS then MarkedRetry(row, Backoff.Delay(row.attempts), now)
    else MarkedFailed(row)
  }

  /** The delays after the first seven attempts, in seconds. */
  const DELAYS: seq<real> := [5.0, 10.0, 20.0, 40.0, 80.0, 160.0, 300.0]

  /** The same in numbers: seven attempts may be followed by another one, the eighth is the last. */
  lemma HandledInNumbers(row: Row, retriable: bool, trouble: Trouble, now: real)
    requires row.attempts >= 1
    ensures !trouble.outcome && retriable && row.attempts <= 7 ==>
              Handled(row, retriable, trouble, now)
              == Row(Retrying, row.attempts, Some(now + DELAYS[row.attempts - 1]), row.createdAt)
    ensures !trouble.outcome && (!retriable || row.attempts >= 8) ==>
              Handled(row, retriable, trouble, now) == Row(Failed, row.attempts, None, row.createdAt)
    ensures trouble.outcome ==> Handled(row, retriable, trouble, now) == row
  {
    Backoff.FirstDelays();
  }

  /** What becomes of a row whose send has returned. */
  function Confirmed(row: Row, trouble: Trouble, now: real): Row {
    if trouble.marking.Some? then Handled(row, trouble.marking.value, trouble, now)
    else if trouble.announcing.Some? then Handled(MarkedSent(row), trouble.announcing.value.retriable, trouble, now)
    else MarkedSent(row)
  }

  /** What `process_row` makes of the claimed row. */
  function ProcessedRow(row: Row, turn: Turn, now: real): Row {
    if !turn.configured then (if turn.trouble.outcome then row else MarkedFailed(row))
    else if !turn.decodes then row
    else
      match turn.send
      case SendOk => Confirmed(row, turn.trouble, now)
      case SendFailed(retriable) => Handled(row, retriable, turn.trouble, now)
  }

  /** The `except` block itself raises. */
  predicate HandlingRaises(trouble: Trouble) {
    trouble.outcome || trouble.outcomeEvent.Some?
  }

  predicate ConfirmingRaises(trouble: Trouble) {
    (trouble.marking.Some? || trouble.announcing.Some?) && HandlingRaises(trouble)
  }

  /** An exception leaves `process_row`. */
  predicate ProcessRaises(turn: Turn) {
    if !turn.configured then turn.trouble.outcome
    else if !turn.decodes then true
    else if turn.send.SendOk? then ConfirmingRaises(turn.trouble)
    else HandlingRaises(turn.trouble)
  }

  /** What a whole turn makes of the row it claims. */
  function TurnRow(row: Row, turn: Turn, now: real): Row {
    if turn.trouble.claim.ReloadRaises? then Claimed(row) else ProcessedRow(Claimed(row), turn, now)
  }

  /** An exception leaves a turn that finds a row to claim. */
  predicate TurnRaises(turn: Turn) {
    !turn.trouble.claim.ClaimWorks? || ProcessRaises(turn) || turn.trouble.refresh
  }

  /** A turn that raises nothing delivers its row, rather than rescheduling or failing it. */
  predicate Succeeds(turn: Turn) {
    && turn.configured && turn.decodes && turn.send.SendOk?
    && turn.trouble.marking.None? && turn.trouble.announcing.None?
  }

  /** The time `process_row` takes. */
  function Spent(turn: Turn): real {
    if turn.configured && turn.decodes then turn.duration else 0.0
  }

  /** It does so before anything is committed. */
  predicate RaisesUnclaimed(turn: Turn) {
    turn.trouble.claim.SelectRaises? || turn.trouble.claim.UpdateRaises?
  }

  /** The turns that delivered a row, one after the other, and what the breaker was told of each. */
  ghost predicate ToldBy(turns: nat -> Turn, told: seq<Outcome>) {
    forall k :: 0 <= k < |told| ==>
      !turns(k).stop && !TurnRaises(turns(k)) && (told[k].Success? <==> Succeeds(turns(k)))
  }

  /** All of it was told at the same time, and the breaker was never open when the next row was claimed. */
  ghost predicate ToldUnlessOpen(before: seq<Outcome>, told: seq<Outcome>, threshold: int, cooldown: real, now: real) {
    forall k :: 0 <= k < |told| ==>
      (told[k].Failure? ==> told[k].at == now) && Observed(before + told[..k], threshold, cooldown, now) != Open
  }

  lemma ToldOneMore(turns: nat -> Turn, before: seq<Outcome>, told: seq<Outcome>, outcome: Outcome,
                    threshold: int, cooldown: real, now: real)
    requires ToldBy(turns, told)
    requires !turns(|told|).stop && !TurnRaises(turns(|told|)) && (outcome.Success? <==> Succeeds(turns(|told|)))
    ensures ToldBy(turns, told + [outcome])
    ensures ToldUnlessOpen(before, told, threshold, cooldown, now)
            && (outcome.Failure? ==> outcome.at == now) && Observed(before + told, threshold, cooldown, now) != Open ==>
              ToldUnlessOpen(before, told + [outcome], threshold, cooldown, now)
  {
    var more := told + [outcome];
    assert more[..|told|] == told;
    assert forall k :: 0 <= k < |told| ==> more[k] == told[k] && more[..k] == told[..k];
  }

  /** Every turn is made, and fails to deliver without raising. */
  ghost predicate AllFail(turns: nat -> Turn) {
    forall k: nat :: !turns(k).stop && !TurnRaises(turns(k)) && !Succeeds(turns(k))
  }

  /** Failures told at one time to a closed breaker are no more than are missing to the threshold, and those open it. */
  lemma ThresholdStops(turns: nat -> Turn, before: seq<Outcome>, told: seq<Outcome>, threshold: int, cooldown: real, now: real)
    requires AllFail(turns) && ToldBy(turns, told) && ToldUnlessOpen(before, told, threshold, cooldown, now)
    requires cooldown > 0.0 && Streak(before) < threshold
    ensures |told| <= threshold - Streak(before)
    ensures |told| == threshold - Streak(before) <==> Observed(before + told, threshold, cooldown, now) == Open
  {
    FailuresInARow(before, told, threshold, cooldown, now);
    if told != [] {
      FailuresInARow(before, told[..|told| - 1], threshold, cooldown, now);
    }
  }

  /** Nothing in these turns takes any time. */
  ghost predicate AllAtOnce(turns: nat -> Turn) {
    forall k: nat :: turns(k).idle == 0.0 && turns(k).duration == 0.0
  }

  /** How `claim_next` ends; `committed` is the row whose claim was committed before the exception. */
  datatype ClaimEnd = NothingToClaim | Got(id: nat) | ClaimRaised(committed: Option<nat>)

  /** How a turn of the loop ends; only after a delivery does the loop go on. */
  datatype TurnEnd = Stopped | CircuitOpen | NoRow | Raised | Delivered

  /** What one DATA command brings, and what happens to it outside. */
  datatype Delivery = Delivery(
    relayAllowed: bool, ewsConfigured: bool, countRaises: bool, credentials: bool, insertRaises: bool, publishRaises: bool)

  /** `Error500` is the server's answer to an exception that `handle_DATA` does not catch. */
  datatype Reply = RelayDenied550 | Temporary451 | QueueFull452 | Accepted250 | Error500

  /** A set of states that no step leaves. */
  ghost predicate Invariant(c: Config, states: State -> bool) {
    forall s, l :: states(s) && Enabled(c, s, l) ==> states(Apply(c, s, l))
  }

  class Process {
    const table: MessageTable
    const circuit: CircuitBreaker
    const metrics: MetricsRegistry
    const maxPending: int
    const rejectOnCircuit: bool
    var utc: real
    var monotonic: real

    ghost const config: Config
    /** Any invariant of the transition system: it holds before and after every method. */
    ghost const states: State -> bool
    ghost var state: State

    ghost predicate Valid()
      reads this, table, circuit, metrics
    {
      && config.maxPending == maxPending && config.rejectOnCircuit == rejectOnCircuit
      && Invariant(config, states) && states(state) && Safe(config, state)
      && state.rows == table.rows
      && state.breaker == circuit.View() && circuit.Valid() && circuit.clock <= monotonic
      && state.counters == metrics.View()
      && state.utc == utc && state.monotonic == monotonic
    }

    constructor (ghost c: Config, ghost states: State -> bool, maxPending: int, rejectOnCircuit: bool, threshold: int, cooldown: real)
      requires c.maxPending == maxPending && c.rejectOnCircuit == rejectOnCircuit
      requires c.threshold == threshold && c.cooldown == cooldown
      requires Invariant(c, states) && states(Init(c))
      ensures Valid() && state == Init(c) && config == c && this.states == states
      ensures fresh(table) && fresh(circuit) && fresh(metrics)
    {
      config, this.states, state := c, states, Init(c);
      this.maxPending, this.rejectOnCircuit := maxPending, rejectOnCircuit;
      utc, monotonic := 0.0, 0.0;
      table := new MessageTable();
      circuit := new CircuitBreaker(threshold, cooldown);
      metrics := new MetricsRegistry();
      new;
      SafeInit(c);
    }

    /** The step of the transition system that the code has just taken. */
    ghost method Take(l: Label)
      requires Invariant(config, states) && states(state) && Safe(config, state) && Enabled(config, state, l)
      modifies this`state
      ensures state == Apply(config, old(state), l)
      ensures states(state) && Safe(config, state)
      ensures Sum(state.rows, AttemptsWeight) == Sum(old(state).rows, AttemptsWeight) + AnyClaim()(l)
    {
      StepKeepsSafe(config, state, l);
      StepAttemptsTotal(config, state, l);
      state := Apply(config, state, l);
    }

    method Pass(seconds: real)
      requires Valid() && seconds >= 0.0
      modifies this`utc, this`monotonic, this`state
      ensures Valid() && utc == old(utc) + seconds && monotonic == old(monotonic) + seconds
      ensures state == old(state).(utc := utc, monotonic := monotonic)
    {
      utc, monotonic := utc + seconds, monotonic + seconds;
      Take(Tick(utc, monotonic));
    }

    /** What the breaker shows at the present time after these outcomes. */
    ghost function Seen(outcomes: seq<Outcome>): CircuitState
      reads this, circuit
    {
      Observed(outcomes, circuit.failureThreshold, circuit.cooldownSeconds, monotonic)
    }

    // ----- the worker loop -----

    /** `circuit.allow()` */
    method AskToSend(w: nat) returns (allowed: bool)
      requires Valid() && w < |state.workers| && state.workers[w] == Idle
      modifies this`state, circuit
      ensures Valid() && state.rows == old(state.rows) && state.utc == old(state.utc)
      ensures state.workers == old(state.workers)[w := if allowed then Allowed else Idle]
      ensures allowed <==> state.breaker.state != Open
      ensures allowed <==> Seen(circuit.outcomes) != Open
      ensures circuit.outcomes == old(circuit.outcomes)
    {
      allowed := circuit.Allow(monotonic);
      Take(Worker(w, AskCircuit));
    }

    /** `claim_next`: with nobody in between, the row that was selected is the row that is claimed. */
    method ClaimNext(w: nat, trouble: ClaimTrouble) returns (end: ClaimEnd)
      requires Valid() && w < |state.workers| && state.workers[w] == Allowed
      modifies this`state, table
      ensures Valid() && circuit.View() == old(circuit.View())
      ensures |state.rows| == old(|state.rows|) && state.utc == old(state.utc)
      ensures end.NothingToClaim? <==> NothingDue(old(state.rows), utc) && !trouble.SelectRaises?
      ensures end.Got? ==> trouble.ClaimWorks? && state.workers == old(state.workers)[w := Owning(end.id)]
      ensures !end.Got? ==> state.workers == old(state.workers)[w := Idle]
      ensures end.ClaimRaised? ==> !trouble.ClaimWorks? && (end.committed.Some? <==> trouble.ReloadRaises?)
      ensures var claimed := if end.Got? then Some(end.id) else if end.ClaimRaised? then end.committed else None;
              if claimed.None? then state.rows == old(state.rows)
              else
                && IsFirstDue(old(state.rows), utc, claimed.value)
                && state.rows == old(state.rows)[claimed.value := Claimed(old(state.rows)[claimed.value])]
                && state.rows[claimed.value].status == Processing
                && state.rows[claimed.value].attempts == old(state.rows)[claimed.value].attempts + 1
                && IsOldest(old(state.rows), utc, claimed.value)
                && Sum(state.rows, AttemptsWeight) == Sum(old(state.rows), AttemptsWeight) + 1
    {
      if trouble.SelectRaises? {
        GiveUpClaim(w);
        return ClaimRaised(None);
      }
      var pick := Select(w);
      if pick.None? {
        return NothingToClaim;
      }
      end := ClaimSelected(w, pick.value, trouble);
    }

    /** The database raises, and nothing was committed. */
    method GiveUpClaim(w: nat)
      requires Valid() && w < |state.workers| && (state.workers[w].Allowed? || state.workers[w].Selected?)
      modifies this`state
      ensures Valid() && state.rows == old(state.rows) && state.utc == old(state.utc)
      ensures state.workers == old(state.workers)[w := Idle]
    {
      Take(Worker(w, DatabaseRaises));
    }

    /** `pending_messages(limit=1)` */
    method Select(w: nat) returns (pick: Option<nat>)
      requires Valid() && w < |state.workers| && state.workers[w] == Allowed
      modifies this`state
      ensures Valid() && state.rows == old(state.rows) && state.utc == old(state.utc)
      ensures if pick.Some? then IsFirstDue(state.rows, utc, pick.value) else NothingDue(state.rows, utc)
      ensures state.workers == old(state.workers)[w := if pick.Some? then Selected(pick.value) else Idle]
    {
      pick := table.SelectFirst(utc);
      Take(Worker(w, SelectRow(pick)));
    }

    /** The rest of it, once the SELECT has found a row. */
    method ClaimSelected(w: nat, id: nat, trouble: ClaimTrouble) returns (end: ClaimEnd)
      requires Valid() && w < |state.workers| && state.workers[w] == Selected(id) && !trouble.SelectRaises?
      requires id < |state.rows| && IsPending(state.rows[id])
      modifies this`state, table
      ensures Valid()
      ensures end == match trouble
                     case ClaimWorks => Got(id)
                     case ReloadRaises => ClaimRaised(Some(id))
                     case _ => ClaimRaised(None)
      ensures state.workers == old(state.workers)[w := if end.Got? then Owning(id) else Idle]
      ensures state.utc == old(state.utc)
      ensures state.rows == if trouble.UpdateRaises? then old(state.rows) else old(state.rows)[id := Claimed(old(state.rows)[id])]
      ensures !trouble.UpdateRaises? ==> Sum(state.rows, AttemptsWeight) == Sum(old(state.rows), AttemptsWeight) + 1
    {
      if trouble.UpdateRaises? {
        GiveUpClaim(w);
        return ClaimRaised(None);
      }
      var matched := table.ClaimRow(id);
      Take(Worker(w, Claim(id)));
      if trouble.ReloadRaises? {
        Take(Worker(w, EscapeClaim(id)));
        return ClaimRaised(Some(id));
      }
      return Got(id);
    }

    /** The send call. */
    method CallDriver(w: nat, id: nat, turn: Turn)
      requires Valid() && Possible(turn) && w < |state.workers| && state.workers[w] == InFlight(id)
      modifies this`state, this`utc, this`monotonic
      ensures Valid() && state.rows == old(state.rows)
      ensures utc == old(utc) + turn.duration && monotonic == old(monotonic) + turn.duration
      ensures state.workers == old(state.workers)[w :=
        if turn.send.SendOk? then SendDone(id) else Handling(id, turn.send.retriable, false)]
    {
      Take(Worker(w, BeginSend(id)));
      Pass(turn.duration);
      Take(Worker(w, match turn.send case SendOk => SendReturns(id) case SendFailed(retriable) => SendRaises(id, retriable)));
      assert state.workers == old(state.workers)[w := state.workers[w]];
    }

    /** `mark_sent`, or the exception that it raises. */
    method CommitSent(w: nat, id: nat, trouble: Option<bool>)
      requires Valid() && w < |state.workers| && state.workers[w] == SendDone(id) && id < |state.rows|
      modifies this`state, table
      ensures Valid()
      ensures state.rows == if trouble.Some? then old(state.rows) else old(state.rows)[id := MarkedSent(old(state.rows)[id])]
      ensures Sum(state.rows, AttemptsWeight) == Sum(old(state.rows), AttemptsWeight)
      ensures state.workers == old(state.workers)[w := if trouble.Some? then Handling(id, trouble.value, false) else SentMarked(id)]
    {
      if trouble.Some? {
        Take(Worker(w, MarkSentRaises(id, trouble.value)));
      } else {
        table.MarkSent(id);
        Take(Worker(w, MarkSent(id)));
      }
    }

    /** The event for an outcome other than a delivery. */
    method AnnounceOutcome(w: nat, id: nat, retried: bool)
      requires Valid() && w < |state.workers| && state.workers[w] == OutcomeMarked(id, retried)
      modifies this`state, metrics
      ensures Valid() && state.rows == old(state.rows) && state.workers == old(state.workers)[w := Returning(id)]
    {
      metrics.OnEvent(if retried then "queue.retry" else "queue.failed");
      Take(Worker(w, PublishOutcome(id, retried)));
    }

    /** An exception instead, before or after the event was counted. */
    method FailToAnnounce(w: nat, id: nat, retried: bool, counted: bool)
      requires Valid() && w < |state.workers| && state.workers[w] == OutcomeMarked(id, retried)
      modifies this`state, metrics
      ensures Valid() && state.rows == old(state.rows) && state.workers == old(state.workers)[w := Raising(id)]
    {
      if counted {
        metrics.OnEvent(if retried then "queue.retry" else "queue.failed");
      }
      Take(Worker(w, PublishOutcomeRaises(id, retried, counted)));
    }

    /** `mark_retry` */
    method CommitRetry(w: nat, id: nat)
      requires Valid() && w < |state.workers| && id < |state.rows|
      requires CanAct(state, state.workers[w], MarkRetry(id, Backoff.Delay(state.rows[id].attempts)))
      modifies this`state, table
      ensures Valid()
      ensures var row := old(state.rows)[id];
              state.rows == old(state.rows)[id := MarkedRetry(row, Backoff.Delay(row.attempts), utc)]
      ensures Sum(state.rows, AttemptsWeight) == Sum(old(state.rows), AttemptsWeight)
      ensures state.workers == old(state.workers)[w := OutcomeMarked(id, true)]
    {
      var delay := Backoff.Delay(table.rows[id].attempts);
      table.MarkRetry(id, delay, utc);
      Take(Worker(w, MarkRetry(id, delay)));
    }

    /** `mark_failed` */
    method CommitFailure(w: nat, id: nat)
      requires Valid() && w < |state.workers| && id < |state.rows|
      requires CanAct(state, state.workers[w], MarkFailed(id))
      modifies this`state, table
      ensures Valid() && state.rows == old(state.rows)[id := MarkedFailed(old(state.rows)[id])]
      ensures Sum(state.rows, AttemptsWeight) == Sum(old(state.rows), AttemptsWeight)
      ensures state.workers == old(state.workers)[w := OutcomeMarked(id, false)]
    {
      table.MarkFailed(id);
      Take(Worker(w, MarkFailed(id)));
    }

    /** The choice between a retry with backoff and giving up. */
    method CommitOutcome(w: nat, id: nat, retriable: bool, ghost trouble: Trouble) returns (retry: bool)
      requires Valid() && w < |state.workers| && id < |state.rows| && !trouble.outcome
      requires state.workers[w].Handling? && state.workers[w].id == id && state.workers[w].retriable == retriable
      modifies this`state, table
      ensures Valid()
      ensures state.rows == old(state.rows)[id := Handled(old(state.rows)[id], retriable, trouble, utc)]
      ensures Sum(state.rows, AttemptsWeight) == Sum(old(state.rows), AttemptsWeight)
      ensures state.workers == old(state.workers)[w := OutcomeMarked(id, retry)]
    {
      retry := retriable && table.rows[id].attempts < MAX_ATTEMPTS;
      if retry {
        CommitRetry(w, id);
      } else {
        CommitFailure(w, id);
      }
    }

    /** The `except` block: retry with backoff, or fail for good; what it raises itself nobody catches. */
    method HandleError(w: nat, id: nat, retriable: bool, afterSent: bool, trouble: Trouble) returns (raised: bool)
      requires Valid() && w < |state.workers| && state.workers[w] == Handling(id, retriable, afterSent) && id < |state.rows|
      modifies this`state, table, metrics
      ensures Valid() && raised == HandlingRaises(trouble)
      ensures state.rows == old(state.rows)[id := Handled(old(state.rows)[id], retriable, trouble, utc)]
      ensures var row := old(state.rows)[id];
              !trouble.outcome ==>
                state.rows[id] == if retriable && 1 <= row.attempts <= 7
                                  then Row(Retrying, row.attempts, Some(utc + DELAYS[row.attempts - 1]), row.createdAt)
                                  else Row(Failed, row.attempts, None, row.createdAt)
      ensures Sum(state.rows, AttemptsWeight) == Sum(old(state.rows), AttemptsWeight)
      ensures state.workers == old(state.workers)[w := if raised then Raising(id) else Returning(id)]
    {
      HandledInNumbers(state.rows[id], retriable, trouble, utc);
      if trouble.outcome {
        Escape(w, id);
        return true;
      }
      var retry := CommitOutcome(w, id, retriable, trouble);
      raised := trouble.outcomeEvent.Some?;
      if raised {
        FailToAnnounce(w, id, retry, trouble.outcomeEvent.value);
      } else {
        AnnounceOutcome(w, id, retry);
      }
    }

    /** An exception leaves `process_row`; the row stays as it is. */
    method Escape(w: nat, id: nat)
      requires Valid() && w < |state.workers|
      requires state.workers[w] == InFlight(id) || (state.workers[w].Handling? && state.workers[w].id == id)
      modifies this`state
      ensures Valid() && state.rows == old(state.rows) && state.workers == old(state.workers)[w := Raising(id)]
    {
      Take(Worker(w, if state.workers[w].Handling? && state.workers[w].afterSent then EscapeAfterSent(id) else EscapeProcess(id)));
    }

    /** Logging and publishing the delivery, or the exception that does not get it done. */
    method AnnounceSent(w: nat, id: nat, trouble: Option<Raise>)
      requires Valid() && w < |state.workers| && state.workers[w] == SentMarked(id)
      modifies this`state, metrics
      ensures Valid() && state.rows == old(state.rows)
      ensures state.workers == old(state.workers)[w :=
        if trouble.Some? then Handling(id, trouble.value.retriable, true) else Returning(id)]
    {
      if trouble.None? || trouble.value.counted {
        metrics.OnEvent("queue.sent");
      }
      Take(Worker(w, match trouble
                     case None => PublishSent(id)
                     case Some(r) => PublishSentRaises(id, r.counted, r.retriable)));
    }

    /** From the return of the send to the end of `process_row`. */
    method Confirm(w: nat, id: nat, trouble: Trouble) returns (raised: bool)
      requires Valid() && w < |state.workers| && state.workers[w] == SendDone(id) && id < |state.rows|
      modifies this`state, table, metrics
      ensures Valid() && raised == ConfirmingRaises(trouble)
      ensures state.rows == old(state.rows)[id := Confirmed(old(state.rows)[id], trouble, utc)]
      ensures Sum(state.rows, AttemptsWeight) == Sum(old(state.rows), AttemptsWeight)
      ensures state.workers == old(state.workers)[w := if raised then Raising(id) else Returning(id)]
    {
      CommitSent(w, id, trouble.marking);
      if trouble.marking.Some? {
        raised := HandleError(w, id, trouble.marking.value, false, trouble);
        return;
      }
      raised := FinishSent(w, id, trouble);
    }

    /** The same after the commit. */
    method FinishSent(w: nat, id: nat, trouble: Trouble) returns (raised: bool)
      requires Valid() && w < |state.workers| && state.workers[w] == SentMarked(id) && id < |state.rows|
      modifies this`state, table, metrics
      ensures Valid() && raised == (trouble.announcing.Some? && HandlingRaises(trouble))
      ensures state.rows ==
                if trouble.announcing.None? then old(state.rows)
                else old(state.rows)[id := Handled(old(state.rows)[id], trouble.announcing.value.retriable, trouble, utc)]
      ensures Sum(state.rows, AttemptsWeight) == Sum(old(state.rows), AttemptsWeight)
      ensures state.workers == old(state.workers)[w := if raised then Raising(id) else Returning(id)]
    {
      AnnounceSent(w, id, trouble.announcing);
      if trouble.announcing.None? {
        return false;
      }
      raised := HandleError(w, id, trouble.announcing.value.retriable, true, trouble);
    }

    /** The "not configured" branch, which publishes nothing. */
    method FailForConfiguration(w: nat, id: nat, trouble: Trouble) returns (raised: bool)
      requires Valid() && w < |state.workers| && state.workers[w] == InFlight(id) && id < |state.rows|
      modifies this`state, table
      ensures Valid() && raised == trouble.outcome
      ensures state.rows == if raised then old(state.rows) else old(state.rows)[id := MarkedFailed(old(state.rows)[id])]
      ensures Sum(state.rows, AttemptsWeight) == Sum(old(state.rows), AttemptsWeight)
      ensures state.workers == old(state.workers)[w := if raised then Raising(id) else Returning(id)]
    {
      raised := trouble.outcome;
      if raised {
        Escape(w, id);
      } else {
        table.MarkFailed(id);
        Take(Worker(w, FailUnconfigured(id)));
      }
    }

    /** `process_row` on a claimed row. */
    method ProcessRow(w: nat, id: nat, turn: Turn) returns (raised: bool)
      requires Valid() && Possible(turn) && w < |state.workers| && state.workers[w] == InFlight(id) && id < |state.rows|
      modifies this`state, this`utc, this`monotonic, table, metrics
      ensures Valid()
      ensures raised <==> ProcessRaises(turn)
      ensures utc == old(utc) + Spent(turn) && monotonic == old(monotonic) + Spent(turn)
      ensures state.rows == old(state.rows)[id := ProcessedRow(old(state.rows)[id], turn, utc)]
      ensures Sum(state.rows, AttemptsWeight) == Sum(old(state.rows), AttemptsWeight)
      ensures state.workers == old(state.workers)[w := if raised then Raising(id) else Returning(id)]
    {
      if !turn.configured {
        raised := FailForConfiguration(w, id, turn.trouble);
      } else if !turn.decodes {
        Escape(w, id);
        raised := true;
      } else {
        CallDriver(w, id, turn);
        if turn.send.SendOk? {
          raised := Confirm(w, id, turn.trouble);
        } else {
          raised := HandleError(w, id, turn.send.retriable, false, turn.trouble);
        }
      }
    }

    /** `session.refresh(row)`, and telling the breaker what it shows. */
    method RecordOutcome(w: nat, id: nat)
      requires Valid() && w < |state.workers| && state.workers[w] == Refreshing(id) && id < |state.rows|
      modifies this`state, circuit
      ensures Valid() && state.rows == old(state.rows) && state.workers == old(state.workers)[w := Idle]
      ensures var status := old(state.rows)[id].status;
              circuit.outcomes == old(circuit.outcomes) +
                (if status == Sent then [Success] else if status == Failed || status == Retrying then [Failure(monotonic)] else [])
    {
      var status := table.rows[id].status;
      Take(Worker(w, Refresh(id)));
      Tell(w, status);
    }

    /** `record_success`, `record_failure`, or neither. */
    method Tell(w: nat, status: Status)
      requires Valid() && w < |state.workers| && state.workers[w] == Observing(status)
      modifies this`state, circuit
      ensures Valid() && state.rows == old(state.rows) && state.workers == old(state.workers)[w := Idle]
      ensures circuit.outcomes == old(circuit.outcomes) +
                (if status == Sent then [Success] else if status == Failed || status == Retrying then [Failure(monotonic)] else [])
    {
      if status == Sent {
        circuit.RecordSuccess(monotonic);
      } else if status == Failed || status == Retrying {
        circuit.RecordFailure(monotonic);
      }
      Take(Worker(w, Record(status)));
    }

    method EnterProcessRow(w: nat, id: nat)
      requires Valid() && w < |state.workers| && state.workers[w] == Owning(id)
      modifies this`state, metrics
      ensures Valid() && state.rows == old(state.rows) && state.workers == old(state.workers)[w := InFlight(id)]
    {
      metrics.IncInFlight();
      Take(Worker(w, EnterFlight(id)));
    }

    method LeaveProcessRow(w: nat, id: nat)
      requires Valid() && w < |state.workers| && (state.workers[w] == Returning(id) || state.workers[w] == Raising(id))
      modifies this`state, metrics
      ensures Valid() && state.rows == old(state.rows)
      ensures state.workers == old(state.workers)[w := if old(state.workers)[w].Returning? then Refreshing(id) else Idle]
    {
      metrics.DecInFlight();
      Take(Worker(w, LeaveFlight(id)));
    }

    /** The `finally` block, and after a normal return the breaker, unless reading the row back raises. */
    method Finish(w: nat, id: nat, raised: bool, refreshRaises: bool)
      requires Valid() && w < |state.workers| && state.workers[w] == (if raised then Raising(id) else Returning(id))
      requires id < |state.rows|
      modifies this`state, circuit, metrics
      ensures Valid() && state.rows == old(state.rows) && state.workers == old(state.workers)[w := Idle]
      ensures raised || refreshRaises ==> circuit.outcomes == old(circuit.outcomes)
      ensures !raised && !refreshRaises ==>
                var status := state.rows[id].status;
                circuit.outcomes == old(circuit.outcomes) +
                  (if status == Sent then [Success] else if status == Failed || status == Retrying then [Failure(monotonic)] else [])
    {
      LeaveProcessRow(w, id);
      if !raised {
        if refreshRaises {
          Take(Worker(w, RefreshRaises(id)));
        } else {
          RecordOutcome(w, id);
        }
      }
    }

    /** The claimed row from `inc_in_flight` to the breaker. */
    method Deliver(w: nat, id: nat, turn: Turn) returns (raised: bool)
      requires Valid() && Possible(turn) && w < |state.workers| && state.workers[w] == Owning(id) && id < |state.rows|
      modifies this`state, this`utc, this`monotonic, table, circuit, metrics
      ensures Valid() && (raised <==> ProcessRaises(turn) || turn.trouble.refresh)
      ensures utc == old(utc) + Spent(turn) && monotonic == old(monotonic) + Spent(turn)
      ensures circuit.outcomes == old(circuit.outcomes)
                                  + if raised then [] else if Succeeds(turn) then [Success] else [Failure(monotonic)]
      ensures state.rows == old(state.rows)[id := ProcessedRow(old(state.rows)[id], turn, utc)]
      ensures !raised ==> (Succeeds(turn) <==> state.rows[id].status == Sent)
      ensures Sum(state.rows, AttemptsWeight) == Sum(old(state.rows), AttemptsWeight)
      ensures state.workers == old(state.workers)[w := Idle]
    {
      EnterProcessRow(w, id);
      raised := ProcessRow(w, id, turn);
      Finish(w, id, raised, turn.trouble.refresh);
      raised := raised || turn.trouble.refresh;
    }

    /** From `claim_next` to the end of the turn. */
    method ClaimAndDeliver(w: nat, turn: Turn) returns (end: TurnEnd, ghost id: nat)
      requires Valid() && Possible(turn) && w < |state.workers| && state.workers[w] == Allowed
      modifies this`state, this`utc, this`monotonic, table, circuit, metrics
      ensures Valid() && |state.rows| == |old(state.rows)| && state.workers == old(state.workers)[w := Idle]
      ensures end == if NothingDue(old(state.rows), old(utc)) && !turn.trouble.claim.SelectRaises? then NoRow
                     else if TurnRaises(turn) then Raised
                     else Delivered
      ensures end.NoRow? ==> state.rows == old(state.rows) && NothingDue(state.rows, utc)
      ensures end.Raised? && RaisesUnclaimed(turn) ==> state.rows == old(state.rows)
      ensures !end.Delivered? ==> circuit.outcomes == old(circuit.outcomes)
      ensures end.Delivered? ==>
                && utc == old(utc) + Spent(turn) && monotonic == old(monotonic) + Spent(turn)
                && circuit.outcomes == old(circuit.outcomes) + [if Succeeds(turn) then Success else Failure(monotonic)]
      ensures !end.Raised? && !end.Delivered? ==> utc == old(utc) && monotonic == old(monotonic)
      ensures end.Delivered? || (end.Raised? && !RaisesUnclaimed(turn)) ==>
                && Sum(state.rows, AttemptsWeight) == Sum(old(state.rows), AttemptsWeight) + 1
                && IsFirstDue(old(state.rows), old(utc), id)
                && state.rows == old(state.rows)[id := TurnRow(old(state.rows)[id], turn, utc)]
                && (end.Delivered? ==> (Succeeds(turn) <==> state.rows[id].status == Sent))
    {
      var claim := ClaimNext(w, turn.trouble.claim);
      if claim.NothingToClaim? {
        return NoRow, 0;
      }
      if claim.ClaimRaised? {
        return Raised, if claim.committed.Some? then claim.committed.value else 0;
      }
      id := claim.id;
      var raised := Deliver(w, claim.id, turn);
      end := if raised then Raised else Delivered;
    }

    /** One turn of the loop in `_drain`. */
    method LoopTurn(w: nat, turn: Turn) returns (end: TurnEnd)
      requires Valid() && Possible(turn) && w < |state.workers| && state.workers[w] == Idle
      modifies this`state, this`utc, this`monotonic, table, circuit, metrics
      ensures Valid() && |state.rows| == |old(state.rows)| && state.workers == old(state.workers)
      ensures end.Stopped? <==> turn.stop
      ensures !turn.stop ==> (end.CircuitOpen? <==>
                Observed(old(circuit.outcomes), circuit.failureThreshold, circuit.cooldownSeconds, old(monotonic) + turn.idle) == Open)
      ensures end.CircuitOpen? ==> state.breaker.state == Open
      ensures end.NoRow? ==> NothingDue(state.rows, utc)
      ensures !end.Delivered? ==> circuit.outcomes == old(circuit.outcomes)
      ensures end.Delivered? ==>
                && utc == old(utc) + turn.idle + Spent(turn) && monotonic == old(monotonic) + turn.idle + Spent(turn)
                && circuit.outcomes == old(circuit.outcomes) + [if Succeeds(turn) then Success else Failure(monotonic)]
      ensures !end.Raised? && !end.Delivered? ==> utc == old(utc) + turn.idle && monotonic == old(monotonic) + turn.idle
      ensures end.Delivered? ==> !TurnRaises(turn)
      ensures end.Raised? ==> TurnRaises(turn)
      ensures end.Delivered? || (end.Raised? && !RaisesUnclaimed(turn)) ==>
                && Sum(state.rows, AttemptsWeight) == Sum(old(state.rows), AttemptsWeight) + 1
                && exists id: nat :: IsFirstDue(old(state.rows), old(utc) + turn.idle, id)
                     && state.rows == old(state.rows)[id := TurnRow(old(state.rows)[id], turn, utc)]
                     && (end.Delivered? ==> (Succeeds(turn) <==> state.rows[id].status == Sent))
      ensures !(end.Delivered? || (end.Raised? && !RaisesUnclaimed(turn))) ==> state.rows == old(state.rows)
    {
      Pass(turn.idle);
      if turn.stop {
        return Stopped;
      }
      var allowed := AskToSend(w);
      assert state.workers[w := Idle] == old(state.workers);
      if !allowed {
        return CircuitOpen;
      }
      ghost var id;
      end, id := ClaimAndDeliver(w, turn);
    }

    /**
     `_drain` of worker `w` while nobody else moves. It ends: each turn claims a row, and a row is claimed at most eight
     times. Unless it was stopped or an exception left it, it ends because the breaker is open or nothing is due. `told` is
     what the breaker heard meanwhile: one success or failure for each row delivered, as the turn had it. When all sends fail
     at once, a closed breaker opens after exactly the failures that are missing to its threshold, unless the rows run out.
     */
    method Drain(w: nat, turns: nat -> Turn) returns (didWork: bool, end: TurnEnd, ghost told: seq<Outcome>)
      requires Valid() && w < |state.workers| && state.workers[w] == Idle
      requires forall k: nat :: Possible(turns(k))
      modifies this`state, this`utc, this`monotonic, table, circuit, metrics
      ensures Valid() && |state.rows| == |old(state.rows)| && state.workers == old(state.workers)
      ensures end.Stopped? || end.Raised? || end.CircuitOpen? || (end.NoRow? && NothingDue(state.rows, utc))
      ensures end.CircuitOpen? ==> Seen(circuit.outcomes) == Open
      ensures end.NoRow? ==> Seen(circuit.outcomes) != Open
      ensures !end.Raised? ==> (didWork <==> Sum(state.rows, AttemptsWeight) > Sum(old(state.rows), AttemptsWeight))
      ensures (end.Stopped? <==> turns(|told|).stop) && (end.Raised? ==> TurnRaises(turns(|told|)))
      ensures circuit.outcomes == old(circuit.outcomes) + told
      ensures ToldBy(turns, told)
      ensures AllAtOnce(turns) && !end.Raised? ==> monotonic == old(monotonic)
      ensures AllAtOnce(turns) ==>
                ToldUnlessOpen(old(circuit.outcomes), told, circuit.failureThreshold, circuit.cooldownSeconds, old(monotonic))
      ensures var missing := circuit.failureThreshold - old(Streak(circuit.outcomes));
              AllAtOnce(turns) && AllFail(turns) && circuit.cooldownSeconds > 0.0 && missing > 0 ==>
                |told| <= missing && (end.CircuitOpen? <==> |told| == missing) && (end.NoRow? <==> |told| < missing)
    {
      ghost var before, start := circuit.outcomes, monotonic;
      didWork, told := false, [];
      var k: nat := 0;
      while true
        invariant k == |told|
        invariant Valid() && |state.rows| == |old(state.rows)| && state.workers == old(state.workers)
        invariant Sum(state.rows, AttemptsWeight) >= Sum(old(state.rows), AttemptsWeight)
        invariant didWork <==> Sum(state.rows, AttemptsWeight) > Sum(old(state.rows), AttemptsWeight)
        invariant circuit.outcomes == before + told && ToldBy(turns, told)
        invariant AllAtOnce(turns) ==>
                    && monotonic == start
                    && ToldUnlessOpen(before, told, circuit.failureThreshold, circuit.cooldownSeconds, start)
        decreases 8 * |state.rows| - Sum(state.rows, AttemptsWeight)
      {
        AttemptsCapped(config, state);
        var turn := turns(k);
        end := LoopTurn(w, turn);
        if !end.Delivered? {
          if AllAtOnce(turns) && AllFail(turns) && circuit.cooldownSeconds > 0.0 && Streak(before) < circuit.failureThreshold {
            ThresholdStops(turns, before, told, circuit.failureThreshold, circuit.cooldownSeconds, start);
          }
          return;
        }
        didWork := true;
        k := k + 1;
        ghost var outcome := if Succeeds(turn) then Success else Failure(monotonic);
        ToldOneMore(turns, before, told, outcome, circuit.failureThreshold, circuit.cooldownSeconds, start);
        told := told + [outcome];
        AttemptsCapped(config, state);
      }
    }

    // ----- accepting -----

    /** The first half of `check_backpressure`. */
    method CircuitDefers(a: nat) returns (deferred: bool)
      requires Valid() && a < |state.acceptors| && state.acceptors[a] == Ready
      modifies this`state, circuit, metrics
      ensures Valid() && state.rows == old(state.rows) && state.workers == old(state.workers)
      ensures state.acceptors == old(state.acceptors)[a := if deferred then Ready else CircuitPassed]
      ensures deferred <==> rejectOnCircuit && Poll(old(state.breaker), monotonic).state == Open
      ensures metrics.smtpDeferred == old(metrics.smtpDeferred) + (if deferred then 1 else 0)
    {
      if rejectOnCircuit {
        var seen := circuit.ReadState(monotonic);
        if seen == Open {
          metrics.IncSmtpDeferred();
          Take(Acceptor(a, DeferCircuit));
          return true;
        }
      }
      Take(Acceptor(a, PassCircuit));
      return false;
    }

    /** The second half; `None` when the count raises. */
    method QueueDefers(a: nat, countRaises: bool) returns (deferred: Option<bool>)
      requires Valid() && a < |state.acceptors| && state.acceptors[a] == CircuitPassed
      modifies this`state, metrics
      ensures Valid() && state.rows == old(state.rows) && state.workers == old(state.workers)
      ensures deferred == if countRaises then None else Some(Pending(old(state.rows)) >= maxPending)
      ensures state.acceptors == old(state.acceptors)[a := if deferred == Some(false) then Checked else Ready]
      ensures metrics.smtpDeferred == old(metrics.smtpDeferred) + (if deferred == Some(true) then 1 else 0)
    {
      if countRaises {
        Take(Acceptor(a, CountRaises));
        return None;
      }
      var pending := table.CountPending();
      if pending >= maxPending {
        metrics.IncSmtpDeferred();
      }
      Take(Acceptor(a, CountPending));
      return Some(pending >= maxPending);
    }

    /** `check_backpressure`: first the circuit, then the number of pending rows. `None` lets the message in. */
    method CheckBackpressure(a: nat, countRaises: bool) returns (deferred: Option<Reply>)
      requires Valid() && a < |state.acceptors| && state.acceptors[a] == Ready
      modifies this`state, circuit, metrics
      ensures Valid() && state.rows == old(state.rows) && state.workers == old(state.workers)
      ensures state.acceptors == old(state.acceptors)[a := if deferred.None? then Checked else Ready]
      ensures var open := rejectOnCircuit && Poll(old(state.breaker), monotonic).state == Open;
              deferred == if open then Some(Temporary451)
                          else if countRaises then Some(Error500)
                          else if Pending(old(state.rows)) >= maxPending then Some(QueueFull452)
                          else None
      ensures metrics.smtpDeferred == old(metrics.smtpDeferred)
                                      + (if deferred == Some(Temporary451) || deferred == Some(QueueFull452) then 1 else 0)
    {
      var circuitOpen := CircuitDefers(a);
      if circuitOpen {
        return Some(Temporary451);
      }
      var full := QueueDefers(a, countRaises);
      return match full
        case None => Some(Error500)
        case Some(isFull) => if isFull then Some(QueueFull452) else None;
    }

    /** `handle_DATA`. A 250 means exactly one new row; so does the 451 of an exception that comes after the commit. */
    method HandleData(a: nat, d: Delivery) returns (reply: Reply)
      requires Valid() && a < |state.acceptors| && state.acceptors[a] == Ready
      modifies this`state, table, circuit, metrics
      ensures Valid() && state.workers == old(state.workers) && state.acceptors[a] == Ready
      ensures var circuitOpen := rejectOnCircuit && Poll(old(state.breaker), monotonic).state == Open;
              var full := Pending(old(state.rows)) >= maxPending;
              var passed := d.relayAllowed && d.ewsConfigured && !circuitOpen;
              var inserted := passed && !d.countRaises && !full && d.credentials && !d.insertRaises;
              && state.rows == (if inserted then old(state.rows) + [Row(Queued, 0, Some(utc), utc)] else old(state.rows))
              && reply == if !d.relayAllowed then RelayDenied550
                          else if inserted && !d.publishRaises then Accepted250
                          else if passed && d.countRaises then Error500
                          else if passed && full then QueueFull452
                          else Temporary451
      ensures !d.relayAllowed || !d.ewsConfigured ==> state == old(state)
    {
      if !d.relayAllowed {
        return RelayDenied550;
      }
      if !d.ewsConfigured {
        return Temporary451;
      }
      var deferred := CheckBackpressure(a, d.countRaises);
      if deferred.Some? {
        return deferred.value;
      }
      if !d.credentials || d.insertRaises {
        Take(Acceptor(a, GiveUp));
        return Temporary451;
      }
      var id := table.InsertMessage(utc);
      Take(Acceptor(a, Insert(id, utc)));
      if d.publishRaises {
        Take(Acceptor(a, LoseReply(id)));
        return Temporary451;
      }
      Take(Acceptor(a, Reply(id)));
      return Accepted250;
    }

    /** The API's test message goes in without a check. */
    method InsertTest() returns (id: nat)
      requires Valid()
      modifies this`state, table
      ensures Valid() && id == old(|state.rows|) && state.rows == old(state.rows) + [Row(Queued, 0, Some(utc), utc)]
    {
      id := table.InsertMessage(utc);
      Take(SubmitTest(id, utc));
    }
  }

  /** The states that runs reach: an invariant, so `Valid` can say that the process has got where it is by a run. */
  ghost function ReachableStates(c: Config): State -> bool {
    (s: State) => exists b, n: nat :: IsBehavior(c, b) && n < |b.states| && b.states[n] == s
  }

  lemma ReachableIsInvariant(c: Config)
    ensures Invariant(c, ReachableStates(c)) && ReachableStates(c)(Init(c))
    ensures forall s :: ReachableStates(c)(s) ==> Safe(c, s)
  {
    forall s, l | ReachableStates(c)(s) && Enabled(c, s, l) ensures ReachableStates(c)(Apply(c, s, l)) {
      var b, n: nat :| IsBehavior(c, b) && n < |b.states| && b.states[n] == s;
      var d := Extend(c, UpTo(c, b, n), l);
      ExtendIsSegment(c, UpTo(c, b, n), l);
      assert IsBehavior(c, d) && n + 1 < |d.states| && d.states[n + 1] == Apply(c, s, l);
    }
    assert IsBehavior(c, Behavior([], [Init(c)])) && Behavior([], [Init(c)]).states[0] == Init(c);
    forall s | ReachableStates(c)(s) ensures Safe(c, s) {
      var b, n: nat :| IsBehavior(c, b) && n < |b.states| && b.states[n] == s;
      AlwaysSafe(c, b, n);
    }
  }

  /** The run up to its n-th step. */
  ghost function UpTo(c: Config, b: Behavior, n: nat): (d: Behavior)
    requires IsBehavior(c, b) && n < |b.states|
    ensures IsBehavior(c, d) && Last(d) == b.states[n]
  {
    var d := Behavior(b.labels[..n], b.states[..n + 1]);
    assert forall i :: 0 <= i < n ==> d.labels[i] == b.labels[i];
    d
  }

  lemma AttemptsCapped(c: Config, s: State)
    requires Safe(c, s)
    ensures Sum(s.rows, AttemptsWeight) <= 8 * |s.rows|
  {
    SumCapped(s.rows, AttemptsWeight, MAX_ATTEMPTS);
  }
}
