/**
 The delivery queue as a transition system.

 Acceptors insert rows, N workers select, claim, send and mark them, a shared circuit breaker gates the workers and
 counters observe both. Everything that is a separate statement, lock section or committed transaction in the code is a
 separate step here, so any two workers and acceptors interleave between any two of them. What the code takes from
 outside (clocks, send outcomes, exceptions) is chosen freely by the step.
 */
module DeliveryModel {
  import opened Options
  import opened Sums
  import opened CircuitBreaking
  import Backoff

  // ----- rows (src/msgate/queue/repository.py) -----

  datatype Status = Queued | Processing | Sent | Failed | Retrying

  /** A row of the messages table. Rows are never deleted: a message is identified by its position in the table. */
  datatype Row = Row(status: Status, attempts: nat, retryAt: Option<real>, createdAt: real)

  const MAX_ATTEMPTS: nat := 8

  predicate IsPending(row: Row) {
    row.status == Queued || row.status == Retrying
  }

  predicate IsDue(row: Row, utc: real) {
    IsPending(row) && (row.retryAt.None? || row.retryAt.value <= utc)
  }

  /** The row `pending_messages(limit=1)` returns: due, and none that is due was created earlier. */
  predicate IsFirstDue(rows: seq<Row>, utc: real, id: nat) {
    && id < |rows|
    && IsDue(rows[id], utc)
    && forall j :: 0 <= j < |rows| && IsDue(rows[j], utc) ==> rows[id].createdAt <= rows[j].createdAt
  }

  predicate NothingDue(rows: seq<Row>, utc: real) {
    forall j :: 0 <= j < |rows| ==> !IsDue(rows[j], utc)
  }

  function NewRow(now: real): Row {
    Row(Queued, 0, Some(now), now)
  }

  function Claimed(row: Row): Row {
    row.(status := Processing, attempts := row.attempts + 1)
  }

  function MarkedSent(row: Row): Row {
    row.(status := Sent, retryAt := None)
  }

  function MarkedFailed(row: Row): Row {
    row.(status := Failed, retryAt := None)
  }

  function MarkedRetry(row: Row, delay: real, now: real): Row {
    row.(status := Retrying, retryAt := Some(now + delay))
  }

  // ----- program counters -----

  /** Where a worker stands in `_drain` (worker.py), `claim_next` (repository.py) and `process_row` (processor.py). */
  datatype WorkerPc =
    | Idle                                                // at the loop test, or waiting to be woken
    | Allowed                                             // `allow()` returned True
    | Selected(id: nat)                                   // the SELECT returned this row
    | Owning(id: nat)                                     // the guarded UPDATE matched and was committed
    | InFlight(id: nat)                                   // counted in flight, inside `process_row`
    | Sending(id: nat)                                    // the send call has begun
    | SendDone(id: nat)                                   // the send call returned, nothing marked yet
    | SentMarked(id: nat)                                 // SENT committed, event not yet published
    | Handling(id: nat, retriable: bool, afterSent: bool) // in the `except` block
    | OutcomeMarked(id: nat, retried: bool)               // RETRYING or FAILED committed, event not yet published
    | Returning(id: nat)                                  // `process_row` returned, `finally` not yet run
    | Raising(id: nat)                                    // an exception left `process_row`, `finally` not yet run
    | Refreshing(id: nat)                                 // before `session.refresh(row)`
    | Observing(status: Status)                           // the refreshed status, not yet recorded

  /** Where an acceptor stands in `handle_DATA`. */
  datatype AcceptorPc =
    | Ready
    | CircuitPassed  // the circuit check of `check_backpressure` did not defer
    | Checked        // the pending count did not defer either
    | Inserted(id: nat)

  /** The part of the metrics registry that the queue drives. */
  datatype Counters = Counters(sent: nat, failed: nat, retried: nat, deferred: nat, inFlight: nat)

  datatype Config = Config(workers: nat, acceptors: nat, maxPending: int, rejectOnCircuit: bool, threshold: int, cooldown: real)

  /** The table, everybody's position, the breaker, the counters, and the two clocks the code reads. */
  datatype State = State(
    rows: seq<Row>,
    workers: seq<WorkerPc>,
    acceptors: seq<AcceptorPc>,
    breaker: Breaker,
    counters: Counters,
    utc: real,
    monotonic: real)

  ghost function Init(c: Config): State {
    State([], seq(c.workers, _ => Idle), seq(c.acceptors, _ => Ready),
          NewBreaker(c.threshold, c.cooldown), Counters(0, 0, 0, 0, 0), 0.0, 0.0)
  }

  // ----- steps -----

  datatype Act =
    | AskCircuit                                  // circuit.allow()
    | SelectRow(pick: Option<nat>)                // SELECT ... ORDER BY created_at LIMIT 1
    | Claim(id: nat)                              // the guarded UPDATE matches the row
    | LoseClaim(id: nat)                          // the guarded UPDATE matches nothing
    | DatabaseRaises                              // the SELECT or the UPDATE raises, nothing committed
    | EscapeClaim(id: nat)                        // the refresh after the commit raises
    | EnterFlight(id: nat)                        // inc_in_flight, then into process_row
    | FailUnconfigured(id: nat)                   // "not configured": FAILED without an event
    | BeginSend(id: nat)                          // payload decoded, the driver is called
    | EscapeProcess(id: nat)                      // an exception leaves process_row with the outcome unmarked
    | EscapeAfterSent(id: nat)                    // the same, after SENT was committed and its event raised
    | SendReturns(id: nat)
    | SendRaises(id: nat, retriable: bool)
    | MarkSent(id: nat)
    | MarkSentRaises(id: nat, retriable: bool)
    | PublishSent(id: nat)
    | PublishSentRaises(id: nat, counted: bool, retriable: bool)  // logging or publishing after the commit raises
    | MarkRetry(id: nat, delay: real)
    | MarkFailed(id: nat)
    | PublishOutcome(id: nat, retried: bool)
    | PublishOutcomeRaises(id: nat, retried: bool, counted: bool)
    | LeaveFlight(id: nat)                        // the `finally` block
    | Refresh(id: nat)
    | RefreshRaises(id: nat)
    | Record(status: Status)                      // record_success / record_failure / neither

  datatype AcceptAct =
    | PassCircuit
    | DeferCircuit
    | CountPending
    | CountRaises           // the pending count raises: the server answers 500
    | GiveUp                // missing credentials, or the insert raises: 451
    | Insert(id: nat, at: real)
    | Reply(id: nat)        // "250 Message accepted for delivery"
    | LoseReply(id: nat)    // an exception after the commit: 451 although the row exists

  datatype Label =
    | Tick(utc: real, monotonic: real)
    | Worker(w: nat, act: Act)
    | Acceptor(a: nat, accept: AcceptAct)
    | SubmitTest(id: nat, at: real)  // the API's test message: inserted without a backpressure check

  /** Whether worker code at `pc` can take `act` next in state `s`. */
  ghost predicate CanAct(s: State, pc: WorkerPc, act: Act) {
    match act
    case AskCircuit => pc == Idle
    case SelectRow(pick) =>
      pc == Allowed && (if pick.Some? then IsFirstDue(s.rows, s.utc, pick.value) else NothingDue(s.rows, s.utc))
    case Claim(id) => pc == Selected(id) && id < |s.rows| && IsPending(s.rows[id])
    case LoseClaim(id) => pc == Selected(id) && id < |s.rows| && !IsPending(s.rows[id])
    case DatabaseRaises => pc.Allowed? || pc.Selected?
    case EscapeClaim(id) => pc == Owning(id)
    case EnterFlight(id) => pc == Owning(id)
    case FailUnconfigured(id) => pc == InFlight(id) && id < |s.rows|
    case BeginSend(id) => pc == InFlight(id)
    case EscapeProcess(id) => pc == InFlight(id) || (pc.Handling? && pc.id == id && !pc.afterSent)
    case EscapeAfterSent(id) => pc.Handling? && pc.id == id && pc.afterSent
    case SendReturns(id) => pc == Sending(id)
    case SendRaises(id, _) => pc == Sending(id)
    case MarkSent(id) => pc == SendDone(id) && id < |s.rows|
    case MarkSentRaises(id, _) => pc == SendDone(id)
    case PublishSent(id) => pc == SentMarked(id)
    case PublishSentRaises(id, _, _) => pc == SentMarked(id)
    case MarkRetry(id, delay) =>
      && pc.Handling? && pc.id == id && pc.retriable && id < |s.rows|
      && s.rows[id].attempts < MAX_ATTEMPTS && delay == Backoff.Delay(s.rows[id].attempts)
    case MarkFailed(id) =>
      && pc.Handling? && pc.id == id && id < |s.rows|
      && !(pc.retriable && s.rows[id].attempts < MAX_ATTEMPTS)
    case PublishOutcome(id, retried) => pc == OutcomeMarked(id, retried)
    case PublishOutcomeRaises(id, retried, _) => pc == OutcomeMarked(id, retried)
    case LeaveFlight(id) => pc == Returning(id) || pc == Raising(id)
    case Refresh(id) => pc == Refreshing(id) && id < |s.rows|
    case RefreshRaises(id) => pc == Refreshing(id)
    case Record(status) => pc == Observing(status)
  }

  ghost function NextPc(s: State, pc: WorkerPc, act: Act): WorkerPc
    requires CanAct(s, pc, act)
  {
    match act
    case AskCircuit => if Poll(s.breaker, s.monotonic).state != Open then Allowed else Idle
    case SelectRow(pick) => if pick.Some? then Selected(pick.value) else Idle
    case Claim(id) => Owning(id)
    case LoseClaim(_) => Idle
    case DatabaseRaises => Idle
    case EscapeClaim(_) => Idle
    case EnterFlight(id) => InFlight(id)
    case FailUnconfigured(id) => Returning(id)
    case BeginSend(id) => Sending(id)
    case EscapeProcess(id) => Raising(id)
    case EscapeAfterSent(id) => Raising(id)
    case SendReturns(id) => SendDone(id)
    case SendRaises(id, retriable) => Handling(id, retriable, false)
    case MarkSent(id) => SentMarked(id)
    case MarkSentRaises(id, retriable) => Handling(id, retriable, false)
    case PublishSent(id) => Returning(id)
    case PublishSentRaises(id, _, retriable) => Handling(id, retriable, true)
    case MarkRetry(id, _) => OutcomeMarked(id, true)
    case MarkFailed(id) => OutcomeMarked(id, false)
    case PublishOutcome(id, _) => Returning(id)
    case PublishOutcomeRaises(id, _, _) => Raising(id)
    case LeaveFlight(id) => if pc.Returning? then Refreshing(id) else Idle
    case Refresh(id) => Observing(s.rows[id].status)
    case RefreshRaises(_) => Idle
    case Record(_) => Idle
  }

  ghost function NextRows(s: State, pc: WorkerPc, act: Act): seq<Row>
    requires CanAct(s, pc, act)
  {
    match act
    case Claim(id) => s.rows[id := Claimed(s.rows[id])]
    case FailUnconfigured(id) => s.rows[id := MarkedFailed(s.rows[id])]
    case MarkSent(id) => s.rows[id := MarkedSent(s.rows[id])]
    case MarkRetry(id, delay) => s.rows[id := MarkedRetry(s.rows[id], delay, s.utc)]
    case MarkFailed(id) => s.rows[id := MarkedFailed(s.rows[id])]
    case _ => s.rows
  }

  /** `MetricsRegistry.on_event` for the two kinds an outcome publishes. */
  function CountOutcome(k: Counters, retried: bool): Counters {
    if retried then k.(retried := k.retried + 1) else k.(failed := k.failed + 1)
  }

  ghost function NextCounters(s: State, pc: WorkerPc, act: Act): Counters
    requires CanAct(s, pc, act)
  {
    var k := s.counters;
    match act
    case EnterFlight(_) => k.(inFlight := k.inFlight + 1)
    case PublishSent(_) => k.(sent := k.sent + 1)
    case PublishSentRaises(_, counted, _) => if counted then k.(sent := k.sent + 1) else k
    case PublishOutcome(_, retried) => CountOutcome(k, retried)
    case PublishOutcomeRaises(_, retried, counted) => if counted then CountOutcome(k, retried) else k
    case LeaveFlight(_) => k.(inFlight := if k.inFlight >= 1 then k.inFlight - 1 else 0)
    case _ => k
  }

  ghost function NextBreaker(s: State, pc: WorkerPc, act: Act): Breaker
    requires CanAct(s, pc, act)
  {
    match act
    case AskCircuit => Poll(s.breaker, s.monotonic)
    case Record(status) =>
      if status == Sent then Succeed(s.breaker)
      else if status == Failed || status == Retrying then Fail(s.breaker, s.monotonic)
      else s.breaker
    case _ => s.breaker
  }

  ghost predicate CanAccept(c: Config, s: State, pc: AcceptorPc, act: AcceptAct) {
    match act
    case PassCircuit => pc == Ready && !(c.rejectOnCircuit && Poll(s.breaker, s.monotonic).state == Open)
    case DeferCircuit => pc == Ready && c.rejectOnCircuit && Poll(s.breaker, s.monotonic).state == Open
    case CountPending => pc == CircuitPassed
    case CountRaises => pc == CircuitPassed
    case GiveUp => pc == Checked
    case Insert(id, at) => pc == Checked && id == |s.rows| && at <= s.utc
    case Reply(id) => pc == Inserted(id)
    case LoseReply(id) => pc == Inserted(id)
  }

  /** What `count_pending` returns. */
  ghost function Pending(rows: seq<Row>): int {
    Sum(rows, PendingWeight)
  }

  function PendingWeight(row: Row): int {
    if IsPending(row) then 1 else 0
  }

  ghost function Accept(c: Config, s: State, a: nat, act: AcceptAct): State
    requires a < |s.acceptors| && CanAccept(c, s, s.acceptors[a], act)
  {
    var polled := if c.rejectOnCircuit then Poll(s.breaker, s.monotonic) else s.breaker;
    var deferred := s.counters.(deferred := s.counters.deferred + 1);
    match act
    case PassCircuit => s.(acceptors := s.acceptors[a := CircuitPassed], breaker := polled)
    case DeferCircuit => s.(breaker := polled, counters := deferred)
    case CountPending =>
      if Pending(s.rows) >= c.maxPending then s.(acceptors := s.acceptors[a := Ready], counters := deferred)
      else s.(acceptors := s.acceptors[a := Checked])
    case CountRaises => s.(acceptors := s.acceptors[a := Ready])
    case GiveUp => s.(acceptors := s.acceptors[a := Ready])
    case Insert(id, at) => s.(acceptors := s.acceptors[a := Inserted(id)], rows := s.rows + [NewRow(at)])
    case Reply(_) => s.(acceptors := s.acceptors[a := Ready])
    case LoseReply(_) => s.(acceptors := s.acceptors[a := Ready])
  }

  ghost predicate Enabled(c: Config, s: State, l: Label) {
    match l
    case Tick(utc, monotonic) => s.utc <= utc && s.monotonic <= monotonic
    case Worker(w, act) => w < |s.workers| && CanAct(s, s.workers[w], act)
    case Acceptor(a, act) => a < |s.acceptors| && CanAccept(c, s, s.acceptors[a], act)
    case SubmitTest(id, at) => id == |s.rows| && at <= s.utc
  }

  ghost function Act1(s: State, w: nat, act: Act): State
    requires w < |s.workers| && CanAct(s, s.workers[w], act)
  {
    var pc := s.workers[w];
    s.(rows := NextRows(s, pc, act),
       workers := s.workers[w := NextPc(s, pc, act)],
       breaker := NextBreaker(s, pc, act),
       counters := NextCounters(s, pc, act))
  }

  ghost function Apply(c: Config, s: State, l: Label): State
    requires Enabled(c, s, l)
  {
    match l
    case Tick(utc, monotonic) => s.(utc := utc, monotonic := monotonic)
    case Worker(w, act) => Act1(s, w, act)
    case Acceptor(a, act) => Accept(c, s, a, act)
    case SubmitTest(_, at) => s.(rows := s.rows + [NewRow(at)])
  }

  // ----- behaviours -----

  /** A run: the steps taken and the states passed through, one more than the steps. */
  datatype Behavior = Behavior(labels: seq<Label>, states: seq<State>)

  ghost predicate IsSegment(c: Config, b: Behavior) {
    && |b.states| == |b.labels| + 1
    && forall i {:trigger b.labels[i]} :: 0 <= i < |b.labels| ==>
         Enabled(c, b.states[i], b.labels[i]) && b.states[i + 1] == Apply(c, b.states[i], b.labels[i])
  }

  ghost predicate IsBehavior(c: Config, b: Behavior) {
    IsSegment(c, b) && b.states[0] == Init(c)
  }

  ghost function Last(b: Behavior): State
    requires b.states != []
  {
    b.states[|b.states| - 1]
  }

  /** One more step. */
  ghost function Extend(c: Config, b: Behavior, l: Label): Behavior
    requires b.states != [] && Enabled(c, Last(b), l)
  {
    Behavior(b.labels + [l], b.states + [Apply(c, Last(b), l)])
  }

  lemma ExtendIsSegment(c: Config, b: Behavior, l: Label)
    requires IsSegment(c, b) && Enabled(c, Last(b), l)
    ensures IsSegment(c, Extend(c, b, l)) && Extend(c, b, l).states[0] == b.states[0]
    ensures Last(Extend(c, b, l)) == Apply(c, Last(b), l)
  {
  }

  // ----- tallies of a run -----

  /** How much the first `n` steps of a run weigh. */
  ghost function Tally(b: Behavior, n: nat, weight: Label -> int): int
    requires n <= |b.labels|
  {
    Sum(b.labels[..n], weight)
  }

  lemma TallyStep(b: Behavior, n: nat, weight: Label -> int)
    requires n < |b.labels|
    ensures Tally(b, n + 1, weight) == Tally(b, n, weight) + weight(b.labels[n])
  {
    assert b.labels[..n + 1] == b.labels[..n] + [b.labels[n]];
    SumAppend(b.labels[..n], b.labels[n], weight);
  }
}
