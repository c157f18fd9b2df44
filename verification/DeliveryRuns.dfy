/** What the queue promises about whole runs: who owns a row, how often it is claimed and sent, and what the counters add up to. */
module DeliveryRuns {
  import opened Sums
  import opened DeliveryModel
  import opened DeliverySafety

  // ----- what is counted -----

  ghost function ActsLike(p: Act -> bool): Label -> int {
    (l: Label) => if l.Worker? && p(l.act) then 1 else 0
  }

  ghost function ClaimsOf(id: nat): Label -> int {
    ActsLike((act: Act) => act == Claim(id))
  }

  /** Exceptions that left a row in PROCESSING behind. */
  ghost function EscapesOf(id: nat): Label -> int {
    ActsLike((act: Act) => act == EscapeClaim(id) || act == EscapeProcess(id))
  }

  ghost function SendsOf(id: nat): Label -> int {
    ActsLike((act: Act) => act == BeginSend(id))
  }

  ghost function SuccessesOf(id: nat): Label -> int {
    ActsLike((act: Act) => act == SendReturns(id))
  }

  /** The send had returned, but marking the row SENT or publishing that it was sent raised. */
  ghost function BookkeepingFaultsOf(id: nat): Label -> int {
    ActsLike((act: Act) => (act.MarkSentRaises? || act.PublishSentRaises?) && act.id == id)
  }

  /** Those of them that the `except` block takes for a reason to try again. */
  ghost function RetriableFaultsOf(id: nat): Label -> int {
    ActsLike((act: Act) => (act.MarkSentRaises? || act.PublishSentRaises?) && act.id == id && act.retriable)
  }

  ghost function EscapesAfterSentOf(id: nat): Label -> int {
    ActsLike((act: Act) => act == EscapeAfterSent(id))
  }

  ghost predicate HasStatus(s: State, id: nat, status: Status) {
    id < |s.rows| && s.rows[id].status == status
  }

  ghost function AttemptsAt(s: State, id: nat): nat {
    if id < |s.rows| then s.rows[id].attempts else 0
  }

  function One(b: bool): int {
    if b then 1 else 0
  }

  lemma TallyStart(b: Behavior, weight: Label -> int)
    requires |b.states| == |b.labels| + 1
    ensures Tally(b, 0, weight) == 0
  {
  }

  lemma {:induction false} TallyMonotone(b: Behavior, m: nat, n: nat, weight: Label -> int)
    requires m <= n <= |b.labels|
    requires forall l :: weight(l) >= 0
    ensures 0 <= Tally(b, m, weight) <= Tally(b, n, weight)
  {
    if n == m {
      SumNonNegative(b.labels[..n], weight);
    } else {
      TallyMonotone(b, m, n - 1, weight);
      TallyStep(b, n - 1, weight);
    }
  }

  /** A quantity of the state that every step changes by the step's weight has changed by the tally. */
  lemma {:induction false} Ledger(b: Behavior, n: nat, quantity: State -> int, weight: Label -> int)
    requires n <= |b.labels| && n < |b.states|
    requires forall i :: 0 <= i < n ==> quantity(b.states[i + 1]) == quantity(b.states[i]) + weight(b.labels[i])
    ensures quantity(b.states[n]) == quantity(b.states[0]) + Tally(b, n, weight)
  {
    if n > 0 {
      Ledger(b, n - 1, quantity, weight);
      TallyStep(b, n - 1, weight);
    }
  }

  lemma {:induction false} LedgerAtMost(b: Behavior, n: nat, quantity: State -> int, weight: Label -> int)
    requires n <= |b.labels| && n < |b.states|
    requires forall i :: 0 <= i < n ==> quantity(b.states[i + 1]) <= quantity(b.states[i]) + weight(b.labels[i])
    ensures quantity(b.states[n]) <= quantity(b.states[0]) + Tally(b, n, weight)
  {
    if n > 0 {
      LedgerAtMost(b, n - 1, quantity, weight);
      TallyStep(b, n - 1, weight);
    }
  }

  // ----- ownership -----

  /** The worker is the owner of this PROCESSING row. */
  predicate OwnsRow(pc: WorkerPc, id: nat) {
    HoldsUnmarked(pc) && pc.id == id
  }

  ghost function OwnerWeight(id: nat): WorkerPc -> int {
    (pc: WorkerPc) => if OwnsRow(pc, id) then 1 else 0
  }

  lemma ActOwnership(c: Config, s: State, w: nat, act: Act, id: nat)
    requires Safe(c, s) && w < |s.workers| && CanAct(s, s.workers[w], act)
    ensures var t := Act1(s, w, act);
            One(HasStatus(t, id, Processing)) - One(HasStatus(s, id, Processing))
            == Sum(t.workers, OwnerWeight(id)) - Sum(s.workers, OwnerWeight(id)) + EscapesOf(id)(Worker(w, act))
  {
    var pc := s.workers[w];
    assert PcFits(pc, s.rows);
    SumUpdate(s.workers, w, NextPc(s, pc, act), OwnerWeight(id));
  }

  lemma StepOwnership(c: Config, s: State, l: Label, id: nat)
    requires Safe(c, s) && Enabled(c, s, l)
    ensures var t := Apply(c, s, l);
            One(HasStatus(t, id, Processing)) - One(HasStatus(s, id, Processing))
            == Sum(t.workers, OwnerWeight(id)) - Sum(s.workers, OwnerWeight(id)) + EscapesOf(id)(l)
  {
    if l.Worker? {
      ActOwnership(c, s, l.w, l.act, id);
    }
  }

  /** A row reads PROCESSING exactly when it has an owner or an exception has orphaned it, and never both. */
  lemma OwnershipLedger(c: Config, b: Behavior, n: nat, id: nat)
    requires IsBehavior(c, b) && n < |b.states|
    ensures One(HasStatus(b.states[n], id, Processing))
            == Sum(b.states[n].workers, OwnerWeight(id)) + Tally(b, n, EscapesOf(id))
  {
    var unexplained := (s: State) => One(HasStatus(s, id, Processing)) - Sum(s.workers, OwnerWeight(id));
    forall i | 0 <= i < n
      ensures unexplained(b.states[i + 1]) == unexplained(b.states[i]) + EscapesOf(id)(b.labels[i])
    {
      AlwaysSafe(c, b, i);
      StepOwnership(c, b.states[i], b.labels[i], id);
    }
    Ledger(b, n, unexplained, EscapesOf(id));
    SumZero(Init(c).workers, OwnerWeight(id));
  }

  /**
   Exclusive claim. In every reachable state of every interleaving no two workers hold the same row, and a row reads
   PROCESSING if and only if either some worker owns it or exactly one escaped exception has orphaned it, not both.
   */
  lemma ExclusiveClaim(c: Config, b: Behavior, n: nat, id: nat)
    requires IsBehavior(c, b) && n < |b.states|
    ensures var s := b.states[n];
            && (forall v, w ::
                  (&& 0 <= v < |s.workers| && Holds(s.workers[v]) && s.workers[v].id == id
                   && 0 <= w < |s.workers| && Holds(s.workers[w]) && s.workers[w].id == id) ==> v == w)
            && (HasStatus(s, id, Processing) <==>
                (exists w :: 0 <= w < |s.workers| && OwnsRow(s.workers[w], id)) || Tally(b, n, EscapesOf(id)) > 0)
            && !((exists w :: 0 <= w < |s.workers| && OwnsRow(s.workers[w], id)) && Tally(b, n, EscapesOf(id)) > 0)
            && Tally(b, n, EscapesOf(id)) <= 1
  {
    var s := b.states[n];
    AlwaysSafe(c, b, n);
    OwnershipLedger(c, b, n, id);
    TallyMonotone(b, 0, n, EscapesOf(id));
    SumNonNegative(s.workers, OwnerWeight(id));
    if w :| 0 <= w < |s.workers| && OwnsRow(s.workers[w], id) {
      SumAtLeast(s.workers, w, OwnerWeight(id));
    } else {
      SumZero(s.workers, OwnerWeight(id));
    }
  }

  /** Two sends of one message never overlap: while one is outstanding, no other worker can begin one. */
  lemma SendsNeverOverlap(c: Config, b: Behavior, n: nat, w: nat, id: nat)
    requires IsBehavior(c, b) && n < |b.labels|
    requires b.labels[n] == Worker(w, BeginSend(id))
    ensures Sending(id) !in b.states[n].workers
    ensures b.states[n + 1].workers == b.states[n].workers[w := Sending(id)]
  {
    AlwaysSafe(c, b, n);
  }

  lemma OrphanStep(c: Config, s: State, l: Label, id: nat)
    requires Safe(c, s) && Enabled(c, s, l)
    requires HasStatus(s, id, Processing) && Sum(s.workers, OwnerWeight(id)) == 0
    ensures id < |Apply(c, s, l).rows| && Apply(c, s, l).rows[id] == s.rows[id]
  {
    if l.Worker? {
      var pc := s.workers[l.w];
      assert PcFits(pc, s.rows);
      SumAtLeast(s.workers, l.w, OwnerWeight(id));
    }
  }

  lemma OrphanHasNoOwner(c: Config, b: Behavior, m: nat, n: nat, id: nat)
    requires IsBehavior(c, b) && m <= n < |b.states|
    requires Tally(b, m, EscapesOf(id)) > 0
    ensures HasStatus(b.states[n], id, Processing) && Sum(b.states[n].workers, OwnerWeight(id)) == 0
  {
    TallyMonotone(b, m, n, EscapesOf(id));
    OwnershipLedger(c, b, n, id);
    SumNonNegative(b.states[n].workers, OwnerWeight(id));
  }

  lemma OrphanStepAt(c: Config, b: Behavior, m: nat, n: nat, id: nat)
    requires IsBehavior(c, b) && m <= n < |b.labels|
    requires Tally(b, m, EscapesOf(id)) > 0
    ensures id < |b.states[n].rows| && id < |b.states[n + 1].rows| && b.states[n + 1].rows[id] == b.states[n].rows[id]
  {
    OrphanHasNoOwner(c, b, m, n, id);
    AlwaysSafe(c, b, n);
    OrphanStep(c, b.states[n], b.labels[n], id);
  }

  /** Nothing reclaims an orphan: once an exception has left it behind, the row never changes again. */
  lemma {:induction false} OrphansStay(c: Config, b: Behavior, m: nat, n: nat, id: nat)
    requires IsBehavior(c, b) && m <= n < |b.states|
    requires Tally(b, m, EscapesOf(id)) > 0
    ensures id < |b.states[m].rows| && id < |b.states[n].rows|
    ensures b.states[n].rows[id] == b.states[m].rows[id] && b.states[n].rows[id].status == Processing
  {
    OrphanHasNoOwner(c, b, m, n, id);
    if m < n {
      OrphansStay(c, b, m, n - 1, id);
      OrphanStepAt(c, b, m, n - 1, id);
    }
  }

  // ----- attempts -----

  lemma StepAttempts(c: Config, s: State, l: Label, id: nat)
    requires Enabled(c, s, l)
    ensures AttemptsAt(Apply(c, s, l), id) == AttemptsAt(s, id) + ClaimsOf(id)(l)
  {
  }

  /** The attempts column counts the claims of the row. */
  lemma AttemptsAreClaims(c: Config, b: Behavior, n: nat, id: nat)
    requires IsBehavior(c, b) && n < |b.states|
    ensures Tally(b, n, ClaimsOf(id)) == AttemptsAt(b.states[n], id)
  {
    var attempts := (s: State) => AttemptsAt(s, id);
    forall i | 0 <= i < n ensures attempts(b.states[i + 1]) == attempts(b.states[i]) + ClaimsOf(id)(b.labels[i]) {
      StepAttempts(c, b.states[i], b.labels[i], id);
    }
    Ledger(b, n, attempts, ClaimsOf(id));
  }

  /** A message is claimed at most eight times, and the status tells how often it can have been. */
  lemma AttemptBound(c: Config, b: Behavior, n: nat, id: nat)
    requires IsBehavior(c, b) && n < |b.states| && id < |b.states[n].rows|
    ensures var claims := Tally(b, n, ClaimsOf(id));
            match b.states[n].rows[id].status
            case Queued => claims == 0
            case Retrying => 1 <= claims <= 7
            case Processing => 1 <= claims <= 8
            case Sent => 1 <= claims <= 8
            case Failed => 1 <= claims <= 8
  {
    AlwaysSafe(c, b, n);
    AttemptsAreClaims(c, b, n, id);
  }

  // ----- totals over all messages -----

  ghost function AnyClaim(): Label -> int {
    ActsLike((act: Act) => act.Claim?)
  }

  ghost function Inserts(): Label -> int {
    (l: Label) => if l.SubmitTest? || (l.Acceptor? && l.accept.Insert?) then 1 else 0
  }

  function AttemptsWeight(row: Row): int {
    row.attempts
  }

  lemma StepRows(c: Config, s: State, l: Label)
    requires Enabled(c, s, l)
    ensures |Apply(c, s, l).rows| == |s.rows| + Inserts()(l)
  {
  }

  lemma RowsAreInserts(c: Config, b: Behavior, n: nat)
    requires IsBehavior(c, b) && n < |b.states|
    ensures |b.states[n].rows| == Tally(b, n, Inserts())
  {
    var size := (s: State) => |s.rows|;
    forall i | 0 <= i < n ensures size(b.states[i + 1]) == size(b.states[i]) + Inserts()(b.labels[i]) {
      StepRows(c, b.states[i], b.labels[i]);
    }
    Ledger(b, n, size, Inserts());
  }

  /** How far a row is from its end: every claim and every outcome takes one off. */
  function Rank(row: Row): int {
    if IsPending(row) then 2 * (MAX_ATTEMPTS - row.attempts) + 1
    else if row.status == Processing then 2 * (MAX_ATTEMPTS - row.attempts) + 2
    else 0
  }

  /**
   Whatever step changes a row brings it nearer to its end, with one exception: a worker whose announcement of the
   delivery raised and that now handles its own success as an error.
   */
  lemma RankFallsIff(c: Config, s: State, l: Label, id: nat)
    requires Safe(c, s) && Enabled(c, s, l) && id < |s.rows|
    ensures id < |Apply(c, s, l).rows| && Rank(Apply(c, s, l).rows[id]) >= 0
    ensures var row := Apply(c, s, l).rows[id];
            row != s.rows[id] ==>
              l.Worker? && (Rank(row) < Rank(s.rows[id]) <==> !(s.workers[l.w].Handling? && s.workers[l.w].afterSent))
  {
    StepKeepsSafe(c, s, l);
    if l.Worker? {
      assert PcFits(s.workers[l.w], s.rows);
    }
  }

  ghost function HasStatusWeight(status: Status): Row -> int {
    (row: Row) => if row.status == status then 1 else 0
  }

  lemma {:induction false} EveryRowHasAStatus(rows: seq<Row>)
    ensures |rows| == Sum(rows, HasStatusWeight(Queued)) + Sum(rows, HasStatusWeight(Processing))
                      + Sum(rows, HasStatusWeight(Sent)) + Sum(rows, HasStatusWeight(Failed))
                      + Sum(rows, HasStatusWeight(Retrying))
  {
    if rows != [] {
      EveryRowHasAStatus(rows[..|rows| - 1]);
    }
  }

  /** The messages accepted so far are the rows in the five statuses: none is lost and none appears from nowhere. */
  lemma RowsByStatus(c: Config, b: Behavior, n: nat)
    requires IsBehavior(c, b) && n < |b.states|
    ensures var rows := b.states[n].rows;
            Tally(b, n, Inserts())
            == Sum(rows, HasStatusWeight(Queued)) + Sum(rows, HasStatusWeight(Processing)) + Sum(rows, HasStatusWeight(Sent))
               + Sum(rows, HasStatusWeight(Failed)) + Sum(rows, HasStatusWeight(Retrying))
  {
    RowsAreInserts(c, b, n);
    EveryRowHasAStatus(b.states[n].rows);
  }

  lemma ActAttemptsTotal(s: State, pc: WorkerPc, act: Act)
    requires CanAct(s, pc, act)
    ensures Sum(NextRows(s, pc, act), AttemptsWeight) == Sum(s.rows, AttemptsWeight) + One(act.Claim?)
  {
    match act {
      case Claim(id) => SumUpdate(s.rows, id, Claimed(s.rows[id]), AttemptsWeight);
      case FailUnconfigured(id) => SumUpdate(s.rows, id, MarkedFailed(s.rows[id]), AttemptsWeight);
      case MarkSent(id) => SumUpdate(s.rows, id, MarkedSent(s.rows[id]), AttemptsWeight);
      case MarkRetry(id, delay) => SumUpdate(s.rows, id, MarkedRetry(s.rows[id], delay, s.utc), AttemptsWeight);
      case MarkFailed(id) => SumUpdate(s.rows, id, MarkedFailed(s.rows[id]), AttemptsWeight);
      case _ =>
    }
  }

  lemma StepAttemptsTotal(c: Config, s: State, l: Label)
    requires Enabled(c, s, l)
    ensures Sum(Apply(c, s, l).rows, AttemptsWeight) == Sum(s.rows, AttemptsWeight) + AnyClaim()(l)
  {
    match l {
      case Tick(_, _) =>
      case Worker(w, act) => ActAttemptsTotal(s, s.workers[w], act);
      case Acceptor(a, act) =>
        if act.Insert? {
          SumAppend(s.rows, NewRow(act.at), AttemptsWeight);
        }
      case SubmitTest(_, at) => SumAppend(s.rows, NewRow(at), AttemptsWeight);
    }
  }

  lemma ClaimsTotal(c: Config, b: Behavior, n: nat)
    requires IsBehavior(c, b) && n < |b.states|
    ensures Tally(b, n, AnyClaim()) == Sum(b.states[n].rows, AttemptsWeight)
  {
    var total := (s: State) => Sum(s.rows, AttemptsWeight);
    forall i | 0 <= i < n ensures total(b.states[i + 1]) == total(b.states[i]) + AnyClaim()(b.labels[i]) {
      StepAttemptsTotal(c, b.states[i], b.labels[i]);
    }
    Ledger(b, n, total, AnyClaim());
  }

  /** M accepted messages cause at most 8 M claims in the whole life of the process, whatever the workers do. */
  lemma ClaimsPerAccept(c: Config, b: Behavior, n: nat)
    requires IsBehavior(c, b) && n < |b.states|
    ensures Tally(b, n, AnyClaim()) <= 8 * Tally(b, n, Inserts())
  {
    ClaimsTotal(c, b, n);
    RowsAreInserts(c, b, n);
    AlwaysSafe(c, b, n);
    SumCapped(b.states[n].rows, AttemptsWeight, MAX_ATTEMPTS);
  }

  // ----- successful sends -----

  /** A worker that knows of a success the table does not show (+1), or that must forget one it shows (-1). */
  ghost function TokenWeight(id: nat): WorkerPc -> int {
    (pc: WorkerPc) =>
      if pc == SendDone(id) then 1 else if pc.Handling? && pc.id == id && pc.afterSent then -1 else 0
  }

  lemma ActSuccesses(c: Config, s: State, w: nat, act: Act, id: nat)
    requires Safe(c, s) && w < |s.workers| && CanAct(s, s.workers[w], act)
    ensures var t := Act1(s, w, act);
            var l := Worker(w, act);
            SuccessesOf(id)(l) + EscapesAfterSentOf(id)(l)
            == BookkeepingFaultsOf(id)(l) + One(HasStatus(t, id, Sent)) - One(HasStatus(s, id, Sent))
               + Sum(t.workers, TokenWeight(id)) - Sum(s.workers, TokenWeight(id))
  {
    var pc := s.workers[w];
    assert PcFits(pc, s.rows);
    SumUpdate(s.workers, w, NextPc(s, pc, act), TokenWeight(id));
  }

  ghost function NetSuccessesOf(id: nat): Label -> int {
    (l: Label) => SuccessesOf(id)(l) + EscapesAfterSentOf(id)(l) - BookkeepingFaultsOf(id)(l)
  }

  lemma StepSuccesses(c: Config, s: State, l: Label, id: nat)
    requires Safe(c, s) && Enabled(c, s, l)
    ensures var t := Apply(c, s, l);
            SuccessesOf(id)(l) + EscapesAfterSentOf(id)(l)
            == BookkeepingFaultsOf(id)(l) + One(HasStatus(t, id, Sent)) - One(HasStatus(s, id, Sent))
               + Sum(t.workers, TokenWeight(id)) - Sum(s.workers, TokenWeight(id))
  {
    if l.Worker? {
      ActSuccesses(c, s, l.w, l.act, id);
    }
  }

  /** Every successful send is on the books: the row reads SENT, a worker is about to say so, or the bookkeeping raised. */
  lemma SuccessLedger(c: Config, b: Behavior, n: nat, id: nat)
    requires IsBehavior(c, b) && n < |b.states|
    ensures Tally(b, n, SuccessesOf(id)) + Tally(b, n, EscapesAfterSentOf(id))
            == Tally(b, n, BookkeepingFaultsOf(id)) + One(HasStatus(b.states[n], id, Sent))
               + Sum(b.states[n].workers, TokenWeight(id))
  {
    var shown := (s: State) => One(HasStatus(s, id, Sent)) + Sum(s.workers, TokenWeight(id));
    forall i | 0 <= i < n
      ensures shown(b.states[i + 1]) == shown(b.states[i]) + NetSuccessesOf(id)(b.labels[i])
    {
      AlwaysSafe(c, b, i);
      StepSuccesses(c, b.states[i], b.labels[i], id);
    }
    Ledger(b, n, shown, NetSuccessesOf(id));
    SumZero(Init(c).workers, TokenWeight(id));
    var both := (l: Label) => SuccessesOf(id)(l) + EscapesAfterSentOf(id)(l);
    SumPlus(b.labels[..n], SuccessesOf(id), EscapesAfterSentOf(id), both);
    SumPlus(b.labels[..n], NetSuccessesOf(id), BookkeepingFaultsOf(id), both);
  }

  /** A worker that may still send this message or put it back into the queue. */
  ghost function ChanceWeight(id: nat): WorkerPc -> int {
    (pc: WorkerPc) =>
      if pc == Owning(id) || pc == InFlight(id) || pc == Sending(id) || (pc.Handling? && pc.id == id && pc.retriable) then 1
      else 0
  }

  /** The ways in which the message can still be sent: not yet inserted or pending, or in the hands of such a worker. */
  ghost function Chances(s: State, id: nat): int {
    One(id >= |s.rows| || IsPending(s.rows[id])) + Sum(s.workers, ChanceWeight(id))
  }

  lemma ActChances(c: Config, s: State, w: nat, act: Act, id: nat)
    requires Safe(c, s) && w < |s.workers| && CanAct(s, s.workers[w], act)
    ensures Chances(Act1(s, w, act), id) + SuccessesOf(id)(Worker(w, act))
            <= Chances(s, id) + RetriableFaultsOf(id)(Worker(w, act))
  {
    var pc := s.workers[w];
    assert PcFits(pc, s.rows);
    SumUpdate(s.workers, w, NextPc(s, pc, act), ChanceWeight(id));
  }

  ghost function FaultsLessSuccessesOf(id: nat): Label -> int {
    (l: Label) => RetriableFaultsOf(id)(l) - SuccessesOf(id)(l)
  }

  lemma StepChances(c: Config, s: State, l: Label, id: nat)
    requires Safe(c, s) && Enabled(c, s, l)
    ensures Chances(Apply(c, s, l), id) <= Chances(s, id) + FaultsLessSuccessesOf(id)(l)
  {
    assert FaultsLessSuccessesOf(id)(l) == RetriableFaultsOf(id)(l) - SuccessesOf(id)(l);
    if l.Worker? {
      ActChances(c, s, l.w, l.act, id);
    }
  }

  lemma ChancesLeft(c: Config, b: Behavior, n: nat, id: nat)
    requires IsBehavior(c, b) && n < |b.states|
    ensures Tally(b, n, SuccessesOf(id)) + Chances(b.states[n], id) <= 1 + Tally(b, n, RetriableFaultsOf(id))
  {
    var chances := (s: State) => Chances(s, id);
    forall i | 0 <= i < n
      ensures chances(b.states[i + 1]) <= chances(b.states[i]) + FaultsLessSuccessesOf(id)(b.labels[i])
    {
      AlwaysSafe(c, b, i);
      StepChances(c, b.states[i], b.labels[i], id);
    }
    LedgerAtMost(b, n, chances, FaultsLessSuccessesOf(id));
    SumZero(Init(c).workers, ChanceWeight(id));
    SumPlus(b.labels[..n], FaultsLessSuccessesOf(id), SuccessesOf(id), RetriableFaultsOf(id));
  }

  /**
   A message is sent successfully at most once, plus once for every time that committing SENT or announcing it raised an
   error that reads as retriable (the `except` block then takes a delivered message for one to be sent again). Errors of
   any other kind never lead to a second delivery.
   */
  lemma SuccessBound(c: Config, b: Behavior, n: nat, id: nat)
    requires IsBehavior(c, b) && n < |b.states|
    ensures Tally(b, n, SuccessesOf(id)) <= 1 + Tally(b, n, RetriableFaultsOf(id))
  {
    ChancesLeft(c, b, n, id);
    SumNonNegative(b.states[n].workers, ChanceWeight(id));
  }

  // ----- final statuses -----

  /** FAILED is final: no step of any worker changes a failed row again. */
  lemma {:induction false} FailedStays(c: Config, b: Behavior, m: nat, n: nat, id: nat)
    requires IsBehavior(c, b) && m <= n < |b.states|
    requires HasStatus(b.states[m], id, Failed)
    ensures id < |b.states[n].rows| && b.states[n].rows[id] == b.states[m].rows[id]
  {
    if m < n {
      FailedStays(c, b, m, n - 1, id);
      FinalStepAt(c, b, n - 1, id);
    }
  }

  lemma FinalStepAt(c: Config, b: Behavior, n: nat, id: nat)
    requires IsBehavior(c, b) && n < |b.labels|
    requires HasStatus(b.states[n], id, Failed) || (HasStatus(b.states[n], id, Sent) && !SomeoneDoubts(b.states[n], id))
    ensures id < |b.states[n].rows| && id < |b.states[n + 1].rows| && b.states[n + 1].rows[id] == b.states[n].rows[id]
  {
    AlwaysSafe(c, b, n);
    FinalStep(c, b.states[n], b.labels[n], id);
  }

  lemma FinalStep(c: Config, s: State, l: Label, id: nat)
    requires Safe(c, s) && Enabled(c, s, l)
    requires HasStatus(s, id, Failed) || (HasStatus(s, id, Sent) && !SomeoneDoubts(s, id))
    ensures id < |Apply(c, s, l).rows| && Apply(c, s, l).rows[id] == s.rows[id]
  {
    if l.Worker? {
      assert PcFits(s.workers[l.w], s.rows);
    }
  }

  /** What makes giving a message up right before its eighth attempt: no configuration, or an error that is not retriable. */
  ghost function CausesToGiveUp(id: nat): Label -> int {
    ActsLike((act: Act) =>
      || act == FailUnconfigured(id) || act == SendRaises(id, false) || act == MarkSentRaises(id, false)
      || (act.PublishSentRaises? && act.id == id && !act.retriable))
  }

  ghost function HopelessWeight(id: nat): WorkerPc -> int {
    (pc: WorkerPc) => if pc.Handling? && pc.id == id && !pc.retriable then 1 else 0
  }

  /** Workers about to give the message up for such an error, and the message itself if it was given up early. */
  ghost function GivenUp(s: State, id: nat): int {
    One(HasStatus(s, id, Failed) && s.rows[id].attempts < 8) + Sum(s.workers, HopelessWeight(id))
  }

  lemma ActGivesUp(c: Config, s: State, w: nat, act: Act, id: nat)
    requires Safe(c, s) && w < |s.workers| && CanAct(s, s.workers[w], act)
    ensures GivenUp(Act1(s, w, act), id) <= GivenUp(s, id) + CausesToGiveUp(id)(Worker(w, act))
  {
    var pc := s.workers[w];
    assert PcFits(pc, s.rows);
    SumUpdate(s.workers, w, NextPc(s, pc, act), HopelessWeight(id));
  }

  lemma StepGivesUp(c: Config, s: State, l: Label, id: nat)
    requires Safe(c, s) && Enabled(c, s, l)
    ensures GivenUp(Apply(c, s, l), id) <= GivenUp(s, id) + CausesToGiveUp(id)(l)
  {
    if l.Worker? {
      ActGivesUp(c, s, l.w, l.act, id);
    }
  }

  /**
   A message fails for good before its eighth attempt only for a cause: it was not configured, or some error met with it was
   not retriable. Retriable errors alone give it all its attempts.
   */
  lemma FailedForCause(c: Config, b: Behavior, n: nat, id: nat)
    requires IsBehavior(c, b) && n < |b.states| && HasStatus(b.states[n], id, Failed)
    ensures Tally(b, n, CausesToGiveUp(id)) >= 1 || Tally(b, n, ClaimsOf(id)) == 8
  {
    var givenUp := (s: State) => GivenUp(s, id);
    forall i | 0 <= i < n
      ensures givenUp(b.states[i + 1]) <= givenUp(b.states[i]) + CausesToGiveUp(id)(b.labels[i])
    {
      AlwaysSafe(c, b, i);
      StepGivesUp(c, b.states[i], b.labels[i], id);
    }
    LedgerAtMost(b, n, givenUp, CausesToGiveUp(id));
    SumZero(Init(c).workers, HopelessWeight(id));
    SumNonNegative(b.states[n].workers, HopelessWeight(id));
    AttemptBound(c, b, n, id);
    AttemptsAreClaims(c, b, n, id);
  }

  /** A worker is in the `except` block although it has already committed SENT for this row. */
  ghost predicate SomeoneDoubts(s: State, id: nat) {
    exists w :: 0 <= w < |s.workers| && s.workers[w].Handling? && s.workers[w].id == id && s.workers[w].afterSent
  }

  ghost function AnnouncementFaultsOf(id: nat): Label -> int {
    ActsLike((act: Act) => act.PublishSentRaises? && act.id == id)
  }

  lemma {:induction false} NoFaultNoDoubt(c: Config, b: Behavior, n: nat, id: nat)
    requires IsBehavior(c, b) && n < |b.states|
    requires Tally(b, n, AnnouncementFaultsOf(id)) == 0
    ensures !SomeoneDoubts(b.states[n], id)
  {
    if n > 0 {
      TallyStep(b, n - 1, AnnouncementFaultsOf(id));
      TallyMonotone(b, 0, n - 1, AnnouncementFaultsOf(id));
      NoFaultNoDoubt(c, b, n - 1, id);
      DoubtStep(c, b.states[n - 1], b.labels[n - 1], id);
    }
  }

  lemma DoubtStep(c: Config, s: State, l: Label, id: nat)
    requires Enabled(c, s, l) && !SomeoneDoubts(s, id) && AnnouncementFaultsOf(id)(l) == 0
    ensures !SomeoneDoubts(Apply(c, s, l), id)
  {
  }

  lemma NoneSoFar(b: Behavior, n: nat, id: nat)
    requires 1 <= n <= |b.labels| && Tally(b, n, AnnouncementFaultsOf(id)) == 0
    ensures Tally(b, n - 1, AnnouncementFaultsOf(id)) == 0 && AnnouncementFaultsOf(id)(b.labels[n - 1]) == 0
  {
    TallyMonotone(b, 0, n - 1, AnnouncementFaultsOf(id));
    TallyStep(b, n - 1, AnnouncementFaultsOf(id));
  }

  /** SENT is final as long as announcing the delivery of this message never raises. */
  lemma {:induction false} SentStays(c: Config, b: Behavior, m: nat, n: nat, id: nat)
    requires IsBehavior(c, b) && m <= n < |b.states|
    requires HasStatus(b.states[m], id, Sent)
    requires Tally(b, n, AnnouncementFaultsOf(id)) == 0
    ensures id < |b.states[n].rows| && b.states[n].rows[id] == b.states[m].rows[id]
  {
    if m < n {
      NoneSoFar(b, n, id);
      SentStays(c, b, m, n - 1, id);
      NoFaultNoDoubt(c, b, n - 1, id);
      FinalStepAt(c, b, n - 1, id);
    }
  }

  // ----- sends per claim -----

  ghost function BeforeSendWeight(id: nat): WorkerPc -> int {
    (pc: WorkerPc) => if pc == Owning(id) || pc == InFlight(id) then 1 else 0
  }

  ghost function ClaimsLessSendsOf(id: nat): Label -> int {
    (l: Label) => ClaimsOf(id)(l) - SendsOf(id)(l)
  }

  lemma ActSends(s: State, pc: WorkerPc, act: Act, id: nat)
    requires CanAct(s, pc, act)
    ensures BeforeSendWeight(id)(NextPc(s, pc, act))
            <= BeforeSendWeight(id)(pc) + One(act == Claim(id)) - One(act == BeginSend(id))
  {
  }

  lemma StepSends(c: Config, s: State, l: Label, id: nat)
    requires Safe(c, s) && Enabled(c, s, l)
    ensures Sum(Apply(c, s, l).workers, BeforeSendWeight(id))
            <= Sum(s.workers, BeforeSendWeight(id)) + ClaimsLessSendsOf(id)(l)
  {
    assert ClaimsLessSendsOf(id)(l) == ClaimsOf(id)(l) - SendsOf(id)(l);
    if l.Worker? {
      var pc := s.workers[l.w];
      ActSends(s, pc, l.act, id);
      SumUpdate(s.workers, l.w, NextPc(s, pc, l.act), BeforeSendWeight(id));
      assert Apply(c, s, l).workers == s.workers[l.w := NextPc(s, pc, l.act)];
    }
  }

  /** The driver is called at most once for each claim, so at most eight times for a message. */
  lemma SendBound(c: Config, b: Behavior, n: nat, id: nat)
    requires IsBehavior(c, b) && n < |b.states|
    ensures Tally(b, n, SendsOf(id)) <= Tally(b, n, ClaimsOf(id)) <= 8
  {
    var before := (s: State) => Sum(s.workers, BeforeSendWeight(id));
    forall i | 0 <= i < n
      ensures before(b.states[i + 1]) <= before(b.states[i]) + ClaimsLessSendsOf(id)(b.labels[i])
    {
      AlwaysSafe(c, b, i);
      StepSends(c, b.states[i], b.labels[i], id);
    }
    LedgerAtMost(b, n, before, ClaimsLessSendsOf(id));
    SumZero(Init(c).workers, BeforeSendWeight(id));
    SumPlus(b.labels[..n], ClaimsLessSendsOf(id), SendsOf(id), ClaimsOf(id));
    SumNonNegative(b.states[n].workers, BeforeSendWeight(id));
    AlwaysSafe(c, b, n);
    AttemptsAreClaims(c, b, n, id);
  }

  // ----- the counters -----

  function ProcessingWeight(row: Row): int {
    if row.status == Processing then 1 else 0
  }

  /** An outcome is committed (or a delivery is being taken back) and its event is not yet counted. */
  function UnpublishedWeight(pc: WorkerPc): int {
    if pc.SentMarked? || pc.OutcomeMarked? || (pc.Handling? && pc.afterSent) then 1 else 0
  }

  ghost function FailedUnconfigured(): Label -> int {
    ActsLike((act: Act) => act.FailUnconfigured?)
  }

  /** Claims that no counter will ever show, apart from the not-configured ones: an exception swallowed their event. */
  ghost function Swallowed(): Label -> int {
    ActsLike((act: Act) => (act.PublishOutcomeRaises? && !act.counted) || act.EscapeAfterSent?)
  }

  /** Deliveries counted as sent although the claim will be counted again under its second outcome. */
  ghost function CountedTwice(): Label -> int {
    ActsLike((act: Act) => act.PublishSentRaises? && act.counted)
  }

  ghost function UncountedNet(): Label -> int {
    (l: Label) => FailedUnconfigured()(l) + Swallowed()(l) - CountedTwice()(l)
  }

  /** The claims that neither a counter, nor a PROCESSING row, nor a worker about to publish accounts for. */
  ghost function Unaccounted(s: State): int {
    Sum(s.rows, AttemptsWeight) - s.counters.sent - s.counters.failed - s.counters.retried
    - Sum(s.rows, ProcessingWeight) - Sum(s.workers, UnpublishedWeight)
  }

  /** What a worker's step does to the number of PROCESSING rows. */
  function ProcessingDelta(pc: WorkerPc, act: Act): int {
    match act
    case Claim(_) => 1
    case FailUnconfigured(_) => -1
    case MarkSent(_) => -1
    case MarkRetry(_, _) => if pc.Handling? && pc.afterSent then 0 else -1
    case MarkFailed(_) => if pc.Handling? && pc.afterSent then 0 else -1
    case _ => 0
  }

  lemma ActProcessing(s: State, pc: WorkerPc, act: Act)
    requires CanAct(s, pc, act) && PcFits(pc, s.rows)
    ensures Sum(NextRows(s, pc, act), ProcessingWeight) == Sum(s.rows, ProcessingWeight) + ProcessingDelta(pc, act)
  {
    match act {
      case Claim(id) => SumUpdate(s.rows, id, Claimed(s.rows[id]), ProcessingWeight);
      case FailUnconfigured(id) => SumUpdate(s.rows, id, MarkedFailed(s.rows[id]), ProcessingWeight);
      case MarkSent(id) => SumUpdate(s.rows, id, MarkedSent(s.rows[id]), ProcessingWeight);
      case MarkRetry(id, delay) => SumUpdate(s.rows, id, MarkedRetry(s.rows[id], delay, s.utc), ProcessingWeight);
      case MarkFailed(id) => SumUpdate(s.rows, id, MarkedFailed(s.rows[id]), ProcessingWeight);
      case _ =>
    }
  }

  function Published(k: Counters): int {
    k.sent + k.failed + k.retried
  }

  /** What a step takes off the claims to be accounted for: committed outcomes, counted or about to be. */
  lemma ActPublished(s: State, pc: WorkerPc, act: Act)
    requires CanAct(s, pc, act)
    ensures Published(NextCounters(s, pc, act)) + UnpublishedWeight(NextPc(s, pc, act)) + ProcessingDelta(pc, act)
            == Published(s.counters) + UnpublishedWeight(pc) + One(act.Claim?)
               - One(act.FailUnconfigured?)
               - One((act.PublishOutcomeRaises? && !act.counted) || act.EscapeAfterSent?)
               + One(act.PublishSentRaises? && act.counted)
  {
  }

  lemma ActUnaccounted(s: State, w: nat, act: Act)
    requires w < |s.workers| && CanAct(s, s.workers[w], act) && PcFits(s.workers[w], s.rows)
    ensures Unaccounted(Act1(s, w, act)) == Unaccounted(s) + UncountedNet()(Worker(w, act))
  {
    var pc := s.workers[w];
    ActAttemptsTotal(s, pc, act);
    ActProcessing(s, pc, act);
    ActPublished(s, pc, act);
    SumUpdate(s.workers, w, NextPc(s, pc, act), UnpublishedWeight);
    assert UncountedNet()(Worker(w, act))
           == FailedUnconfigured()(Worker(w, act)) + Swallowed()(Worker(w, act)) - CountedTwice()(Worker(w, act));
  }

  lemma StepUnaccounted(c: Config, s: State, l: Label)
    requires Safe(c, s) && Enabled(c, s, l)
    ensures Unaccounted(Apply(c, s, l)) == Unaccounted(s) + UncountedNet()(l)
  {
    assert !l.Worker? ==> FailedUnconfigured()(l) == Swallowed()(l) == CountedTwice()(l) == UncountedNet()(l) == 0;
    match l {
      case Tick(_, _) =>
      case Worker(w, act) => ActUnaccounted(s, w, act);
      case Acceptor(a, act) =>
        if act.Insert? {
          SumAppend(s.rows, NewRow(act.at), ProcessingWeight);
          SumAppend(s.rows, NewRow(act.at), AttemptsWeight);
        }
      case SubmitTest(_, at) =>
        SumAppend(s.rows, NewRow(at), ProcessingWeight);
        SumAppend(s.rows, NewRow(at), AttemptsWeight);
    }
  }

  /**
   Conservation. In every reachable state the claims made so far are exactly: what the three counters show, the rows in
   PROCESSING, the outcomes about to be published, the not-configured failures, and the corrections for exceptions
   raised by publishing itself (zero when publishing never raises).
   */
  lemma Conservation(c: Config, b: Behavior, n: nat)
    requires IsBehavior(c, b) && n < |b.states|
    ensures var s := b.states[n];
            Tally(b, n, AnyClaim())
            == s.counters.sent + s.counters.failed + s.counters.retried
               + Sum(s.rows, ProcessingWeight) + Sum(s.workers, UnpublishedWeight)
               + Tally(b, n, FailedUnconfigured()) + Tally(b, n, Swallowed()) - Tally(b, n, CountedTwice())
  {
    forall i | 0 <= i < n
      ensures Unaccounted(b.states[i + 1]) == Unaccounted(b.states[i]) + UncountedNet()(b.labels[i])
    {
      AlwaysSafe(c, b, i);
      StepUnaccounted(c, b.states[i], b.labels[i]);
    }
    Ledger(b, n, Unaccounted, UncountedNet());
    SumZero(Init(c).workers, UnpublishedWeight);
    ClaimsTotal(c, b, n);
    var both := (l: Label) => FailedUnconfigured()(l) + Swallowed()(l);
    SumPlus(b.labels[..n], FailedUnconfigured(), Swallowed(), both);
    SumPlus(b.labels[..n], UncountedNet(), CountedTwice(), both);
  }

  /** The commits that a counter is for. */
  ghost function CommitsTo(status: Status): Label -> int {
    ActsLike((act: Act) =>
      (status == Sent && act.MarkSent?) || (status == Retrying && act.MarkRetry?) || (status == Failed && act.MarkFailed?))
  }

  /** Events of such commits that an exception swallowed before they were counted. */
  ghost function UncountedEvents(status: Status): Label -> int {
    ActsLike((act: Act) =>
      || (status == Sent && act.PublishSentRaises? && !act.counted)
      || (status == Retrying && act.PublishOutcomeRaises? && act.retried && !act.counted)
      || (status == Failed && act.PublishOutcomeRaises? && !act.retried && !act.counted))
  }

  /** A worker that has committed this status and is about to publish it. */
  ghost function AboutToPublish(status: Status): WorkerPc -> int {
    (pc: WorkerPc) =>
      if (status == Sent && pc.SentMarked?) || (status == Retrying && pc.OutcomeMarked? && pc.retried)
         || (status == Failed && pc.OutcomeMarked? && !pc.retried) then 1
      else 0
  }

  function CounterFor(k: Counters, status: Status): int {
    match status
    case Sent => k.sent
    case Retrying => k.retried
    case Failed => k.failed
    case _ => 0
  }

  lemma ActCounts(s: State, pc: WorkerPc, w: nat, act: Act, status: Status)
    requires CanAct(s, pc, act)
    ensures CounterFor(NextCounters(s, pc, act), status) + AboutToPublish(status)(NextPc(s, pc, act))
            == CounterFor(s.counters, status) + AboutToPublish(status)(pc)
               + CommitsTo(status)(Worker(w, act)) - UncountedEvents(status)(Worker(w, act))
  {
  }

  ghost function CountedNet(status: Status): Label -> int {
    (l: Label) => CommitsTo(status)(l) - UncountedEvents(status)(l)
  }

  ghost function Shown(s: State, status: Status): int {
    CounterFor(s.counters, status) + Sum(s.workers, AboutToPublish(status))
  }

  lemma StepCounts(c: Config, s: State, l: Label, status: Status)
    requires Enabled(c, s, l)
    ensures Shown(Apply(c, s, l), status) == Shown(s, status) + CountedNet(status)(l)
  {
    assert CountedNet(status)(l) == CommitsTo(status)(l) - UncountedEvents(status)(l);
    if l.Worker? {
      var pc := s.workers[l.w];
      ActCounts(s, pc, l.w, l.act, status);
      SumUpdate(s.workers, l.w, NextPc(s, pc, l.act), AboutToPublish(status));
      assert Apply(c, s, l).workers == s.workers[l.w := NextPc(s, pc, l.act)];
    }
  }

  lemma CounterLedger(c: Config, b: Behavior, n: nat, status: Status)
    requires IsBehavior(c, b) && n < |b.states|
    ensures Tally(b, n, CommitsTo(status)) == Shown(b.states[n], status) + Tally(b, n, UncountedEvents(status))
  {
    var shown := (s: State) => Shown(s, status);
    forall i | 0 <= i < n ensures shown(b.states[i + 1]) == shown(b.states[i]) + CountedNet(status)(b.labels[i]) {
      StepCounts(c, b.states[i], b.labels[i], status);
    }
    Ledger(b, n, shown, CountedNet(status));
    SumZero(Init(c).workers, AboutToPublish(status));
    SumPlus(b.labels[..n], CountedNet(status), UncountedEvents(status), CommitsTo(status));
  }

  /**
   Each counter counts its own outcome: commits of SENT, RETRYING and FAILED (the not-configured ones apart, which publish
   nothing) are what the sent, retried and failed counters show, but for those about to be published and those whose event
   an exception swallowed.
   */
  lemma CountersAreOutcomes(c: Config, b: Behavior, n: nat)
    requires IsBehavior(c, b) && n < |b.states|
    ensures var s := b.states[n];
            && Tally(b, n, CommitsTo(Sent))
               == s.counters.sent + Sum(s.workers, AboutToPublish(Sent)) + Tally(b, n, UncountedEvents(Sent))
            && Tally(b, n, CommitsTo(Retrying))
               == s.counters.retried + Sum(s.workers, AboutToPublish(Retrying)) + Tally(b, n, UncountedEvents(Retrying))
            && Tally(b, n, CommitsTo(Failed))
               == s.counters.failed + Sum(s.workers, AboutToPublish(Failed)) + Tally(b, n, UncountedEvents(Failed))
  {
    CounterLedger(c, b, n, Sent);
    CounterLedger(c, b, n, Retrying);
    CounterLedger(c, b, n, Failed);
  }

  /** The in-flight gauge is the number of workers inside `process_row`: it never passes N, and its clamp at 0 never acts. */
  lemma GaugeIsExact(c: Config, b: Behavior, n: nat)
    requires IsBehavior(c, b) && n < |b.states|
    ensures b.states[n].counters.inFlight == Sum(b.states[n].workers, InsideWeight) <= c.workers
    ensures n < |b.labels| && b.labels[n].Worker? && b.labels[n].act.LeaveFlight? ==> b.states[n].counters.inFlight >= 1
  {
    var s := b.states[n];
    AlwaysSafe(c, b, n);
    SumBounds(s.workers, InsideWeight);
    if n < |b.labels| && b.labels[n].Worker? && b.labels[n].act.LeaveFlight? {
      SumAtLeast(s.workers, b.labels[n].w, InsideWeight);
    }
  }

  // ----- what the breaker hears -----

  /** An outcome is committed. */
  ghost function Commits(): Label -> int {
    ActsLike((act: Act) => act.MarkSent? || act.FailUnconfigured? || act.MarkRetry? || act.MarkFailed?)
  }

  predicate IsOutcome(status: Status) {
    status == Sent || status == Failed || status == Retrying
  }

  /** The breaker is told of a success or a failure. */
  ghost function Heard(): Label -> int {
    ActsLike((act: Act) => act.Record? && IsOutcome(act.status))
  }

  /** The status read back is not an outcome any more, and the breaker is told nothing. */
  ghost function Unheard(): Label -> int {
    ActsLike((act: Act) => act.Record? && !IsOutcome(act.status))
  }

  /** Announcing the outcome, or reading it back, raised. */
  ghost function HearingFaults(): Label -> int {
    ActsLike((act: Act) => act.PublishSentRaises? || act.PublishOutcomeRaises? || act.RefreshRaises?)
  }

  /** A committed outcome is on its way to the breaker. */
  function OnItsWayWeight(pc: WorkerPc): int {
    if pc.SentMarked? || pc.OutcomeMarked? || pc.Returning? || pc.Refreshing? || pc.Observing? then 1 else 0
  }

  ghost function HearingNet(): Label -> int {
    (l: Label) => Commits()(l) - Heard()(l) - Unheard()(l) - HearingFaults()(l)
  }

  lemma ActHearing(s: State, pc: WorkerPc, w: nat, act: Act)
    requires CanAct(s, pc, act)
    ensures OnItsWayWeight(NextPc(s, pc, act)) == OnItsWayWeight(pc) + HearingNet()(Worker(w, act))
  {
    var l := Worker(w, act);
    assert HearingNet()(l) == Commits()(l) - Heard()(l) - Unheard()(l) - HearingFaults()(l);
  }

  lemma StepHearing(c: Config, s: State, l: Label)
    requires Enabled(c, s, l)
    ensures Sum(Apply(c, s, l).workers, OnItsWayWeight) == Sum(s.workers, OnItsWayWeight) + HearingNet()(l)
  {
    if l.Worker? {
      var pc := s.workers[l.w];
      ActHearing(s, pc, l.w, l.act);
      SumUpdate(s.workers, l.w, NextPc(s, pc, l.act), OnItsWayWeight);
      assert Apply(c, s, l).workers == s.workers[l.w := NextPc(s, pc, l.act)];
    } else {
      assert Commits()(l) == Heard()(l) == Unheard()(l) == HearingFaults()(l) == HearingNet()(l) == 0;
    }
  }

  /**
   Where the committed outcomes are, for any number of workers: the breaker has heard of them, they were read back too
   late, announcing them or reading them back raised, or a worker is still on its way.
   */
  lemma HearingLedger(c: Config, b: Behavior, n: nat)
    requires IsBehavior(c, b) && n < |b.states|
    ensures Tally(b, n, Commits())
            == Tally(b, n, Heard()) + Tally(b, n, Unheard()) + Tally(b, n, HearingFaults())
               + Sum(b.states[n].workers, OnItsWayWeight)
  {
    var onTheWay := (s: State) => Sum(s.workers, OnItsWayWeight);
    forall i | 0 <= i < n ensures onTheWay(b.states[i + 1]) == onTheWay(b.states[i]) + HearingNet()(b.labels[i]) {
      StepHearing(c, b.states[i], b.labels[i]);
    }
    Ledger(b, n, onTheWay, HearingNet());
    SumZero(Init(c).workers, OnItsWayWeight);
    var records := (l: Label) => Heard()(l) + Unheard()(l);
    var ends := (l: Label) => records(l) + HearingFaults()(l);
    SumPlus(b.labels[..n], Heard(), Unheard(), records);
    SumPlus(b.labels[..n], records, HearingFaults(), ends);
    SumPlus(b.labels[..n], HearingNet(), ends, Commits());
  }

  // ----- what a 250 reply promises -----

  ghost function AcceptsLike(p: AcceptAct -> bool): Label -> int {
    (l: Label) => if l.Acceptor? && p(l.accept) then 1 else 0
  }

  ghost function RepliesOf(id: nat): Label -> int {
    AcceptsLike((act: AcceptAct) => act == Reply(id))
  }

  ghost function LostRepliesOf(id: nat): Label -> int {
    AcceptsLike((act: AcceptAct) => act == LoseReply(id))
  }

  ghost function InsertsOf(id: nat): Label -> int {
    AcceptsLike((act: AcceptAct) => act.Insert? && act.id == id)
  }

  ghost function TestsOf(id: nat): Label -> int {
    (l: Label) => if l.SubmitTest? && l.id == id then 1 else 0
  }

  ghost function CreationsOf(id: nat): Label -> int {
    (l: Label) => InsertsOf(id)(l) + TestsOf(id)(l)
  }

  ghost function AwaitingReplyOf(id: nat): Label -> int {
    (l: Label) => InsertsOf(id)(l) - RepliesOf(id)(l) - LostRepliesOf(id)(l)
  }

  ghost function InsertedWeight(id: nat): AcceptorPc -> int {
    (pc: AcceptorPc) => if pc == Inserted(id) then 1 else 0
  }

  lemma StepCreations(c: Config, s: State, l: Label, id: nat)
    requires Enabled(c, s, l)
    ensures One(id < |Apply(c, s, l).rows|) == One(id < |s.rows|) + CreationsOf(id)(l)
  {
    assert CreationsOf(id)(l) == InsertsOf(id)(l) + TestsOf(id)(l);
  }

  lemma StepReplies(c: Config, s: State, l: Label, id: nat)
    requires Enabled(c, s, l)
    ensures Sum(Apply(c, s, l).acceptors, InsertedWeight(id)) == Sum(s.acceptors, InsertedWeight(id)) + AwaitingReplyOf(id)(l)
  {
    assert AwaitingReplyOf(id)(l) == InsertsOf(id)(l) - RepliesOf(id)(l) - LostRepliesOf(id)(l);
    if l.Acceptor? {
      SumUpdate(s.acceptors, l.a, Apply(c, s, l).acceptors[l.a], InsertedWeight(id));
    }
  }

  lemma CreationLedger(c: Config, b: Behavior, n: nat, id: nat)
    requires IsBehavior(c, b) && n < |b.states|
    ensures Tally(b, n, CreationsOf(id)) == One(id < |b.states[n].rows|)
  {
    var exist := (s: State) => One(id < |s.rows|);
    forall i | 0 <= i < n ensures exist(b.states[i + 1]) == exist(b.states[i]) + CreationsOf(id)(b.labels[i]) {
      StepCreations(c, b.states[i], b.labels[i], id);
    }
    Ledger(b, n, exist, CreationsOf(id));
  }

  lemma ReplyLedger(c: Config, b: Behavior, n: nat, id: nat)
    requires IsBehavior(c, b) && n < |b.states|
    ensures Tally(b, n, AwaitingReplyOf(id)) == Sum(b.states[n].acceptors, InsertedWeight(id))
  {
    var waiting := (s: State) => Sum(s.acceptors, InsertedWeight(id));
    forall i | 0 <= i < n ensures waiting(b.states[i + 1]) == waiting(b.states[i]) + AwaitingReplyOf(id)(b.labels[i]) {
      StepReplies(c, b.states[i], b.labels[i], id);
    }
    Ledger(b, n, waiting, AwaitingReplyOf(id));
    SumZero(Init(c).acceptors, InsertedWeight(id));
  }

  /**
   A message is inserted at most once and answered at most once; one answered "250" has exactly one row, from its
   insertion on and in every later state (the responsibility section 6.1 of RFC 5321 speaks of). The other direction
   does not hold: a row whose reply was lost after the commit exists as well.
   */
  lemma AcceptedIsKept(c: Config, b: Behavior, n: nat, id: nat)
    requires IsBehavior(c, b) && n < |b.states|
    ensures Tally(b, n, CreationsOf(id)) == One(id < |b.states[n].rows|)
    ensures Tally(b, n, RepliesOf(id)) + Tally(b, n, LostRepliesOf(id)) + Sum(b.states[n].acceptors, InsertedWeight(id))
            == Tally(b, n, InsertsOf(id)) <= Tally(b, n, CreationsOf(id))
    ensures Tally(b, n, RepliesOf(id)) > 0 ==>
              Tally(b, n, RepliesOf(id)) == Tally(b, n, InsertsOf(id)) == 1 && id < |b.states[n].rows|
  {
    CreationLedger(c, b, n, id);
    ReplyLedger(c, b, n, id);
    var answered := (l: Label) => RepliesOf(id)(l) + LostRepliesOf(id)(l);
    SumPlus(b.labels[..n], RepliesOf(id), LostRepliesOf(id), answered);
    SumPlus(b.labels[..n], AwaitingReplyOf(id), answered, InsertsOf(id));
    SumPlus(b.labels[..n], InsertsOf(id), TestsOf(id), CreationsOf(id));
    TallyMonotone(b, 0, n, TestsOf(id));
    TallyMonotone(b, 0, n, RepliesOf(id));
    TallyMonotone(b, 0, n, LostRepliesOf(id));
    SumNonNegative(b.states[n].acceptors, InsertedWeight(id));
  }
}
