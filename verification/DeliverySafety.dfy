/** What every interleaving of the workers and acceptors keeps: ownership, the attempt bounds, the in-flight gauge. */
module DeliverySafety {
  import opened Sums
  import opened DeliveryModel

  // ----- ownership -----

  /** The worker has claimed this row and has not yet committed an outcome for it. */
  predicate Holds(pc: WorkerPc) {
    pc.Owning? || pc.InFlight? || pc.Sending? || pc.SendDone? || pc.SentMarked? || pc.Handling?
  }

  /** The worker holds a row whose outcome the table does not show in any way: it still reads PROCESSING. */
  predicate HoldsUnmarked(pc: WorkerPc) {
    Holds(pc) && !pc.SentMarked? && !(pc.Handling? && pc.afterSent)
  }

  predicate HasId(pc: WorkerPc) {
    !(pc.Idle? || pc.Allowed? || pc.Observing?)
  }

  predicate AttemptsFit(row: Row) {
    match row.status
    case Queued => row.attempts == 0
    case Retrying => 1 <= row.attempts <= MAX_ATTEMPTS - 1
    case _ => 1 <= row.attempts <= MAX_ATTEMPTS
  }

  predicate PcFits(pc: WorkerPc, rows: seq<Row>) {
    && (HasId(pc) ==> pc.id < |rows|)
    && (Holds(pc) ==> rows[pc.id].status == (if HoldsUnmarked(pc) then Processing else Sent))
    && (pc.OutcomeMarked? ==> rows[pc.id].attempts >= 1)
  }

  /** The workers inside `process_row`, up to the `finally` block. */
  predicate InsideProcessRow(pc: WorkerPc) {
    (Holds(pc) && !pc.Owning?) || pc.OutcomeMarked? || pc.Returning? || pc.Raising?
  }

  function InsideWeight(pc: WorkerPc): int {
    if InsideProcessRow(pc) then 1 else 0
  }

  ghost predicate Safe(c: Config, s: State) {
    && |s.workers| == c.workers
    && |s.acceptors| == c.acceptors
    && (forall i :: 0 <= i < |s.rows| ==> AttemptsFit(s.rows[i]))
    && (forall w :: 0 <= w < |s.workers| ==> PcFits(s.workers[w], s.rows))
    && (forall v, w :: 0 <= v < w < |s.workers| && Holds(s.workers[v]) && Holds(s.workers[w]) ==>
          s.workers[v].id != s.workers[w].id)
    && (forall a :: 0 <= a < |s.acceptors| && s.acceptors[a].Inserted? ==> s.acceptors[a].id < |s.rows|)
    && s.counters.inFlight == Sum(s.workers, InsideWeight)
  }

  lemma SafeInit(c: Config)
    ensures Safe(c, Init(c))
  {
    SumZero(Init(c).workers, InsideWeight);
  }

  lemma ActKeepsRowsFit(c: Config, s: State, w: nat, act: Act)
    requires Safe(c, s) && w < |s.workers| && CanAct(s, s.workers[w], act)
    ensures forall i :: 0 <= i < |s.rows| ==> AttemptsFit(Act1(s, w, act).rows[i])
  {
  }

  lemma ActKeepsOthersFit(c: Config, s: State, w: nat, act: Act, v: nat)
    requires Safe(c, s) && w < |s.workers| && CanAct(s, s.workers[w], act)
    requires v < |s.workers|
    ensures PcFits(Act1(s, w, act).workers[v], Act1(s, w, act).rows)
  {
    if v == w {
      assert PcFits(s.workers[w], s.rows);
    } else {
      assert PcFits(s.workers[v], s.rows);
      assert PcFits(s.workers[w], s.rows);
    }
  }

  lemma ActKeepsGauge(c: Config, s: State, w: nat, act: Act)
    requires Safe(c, s) && w < |s.workers| && CanAct(s, s.workers[w], act)
    ensures Act1(s, w, act).counters.inFlight == Sum(Act1(s, w, act).workers, InsideWeight)
  {
    var pc := s.workers[w];
    SumUpdate(s.workers, w, NextPc(s, pc, act), InsideWeight);
    SumAtLeast(s.workers, w, InsideWeight);
  }

  lemma ActKeepsSafe(c: Config, s: State, w: nat, act: Act)
    requires Safe(c, s) && w < |s.workers| && CanAct(s, s.workers[w], act)
    ensures Safe(c, Act1(s, w, act))
  {
    var t := Act1(s, w, act);
    ActKeepsRowsFit(c, s, w, act);
    ActKeepsGauge(c, s, w, act);
    forall v | 0 <= v < |t.workers| ensures PcFits(t.workers[v], t.rows) {
      ActKeepsOthersFit(c, s, w, act, v);
    }
    assert PcFits(s.workers[w], s.rows);
    assert forall v :: 0 <= v < |s.workers| && v != w && Holds(s.workers[v]) ==> PcFits(s.workers[v], s.rows);
  }

  lemma StepKeepsSafe(c: Config, s: State, l: Label)
    requires Safe(c, s) && Enabled(c, s, l)
    ensures Safe(c, Apply(c, s, l))
  {
    match l {
      case Tick(_, _) =>
      case Worker(w, act) => ActKeepsSafe(c, s, w, act);
      case Acceptor(a, act) =>
        var t := Apply(c, s, l);
        assert forall w :: 0 <= w < |s.workers| ==> PcFits(s.workers[w], s.rows) ==> PcFits(s.workers[w], t.rows);
      case SubmitTest(_, at) =>
        var t := Apply(c, s, l);
        assert forall w :: 0 <= w < |s.workers| ==> PcFits(s.workers[w], s.rows) ==> PcFits(s.workers[w], t.rows);
    }
  }

  /** Every state of every run is safe. */
  lemma {:induction false} AlwaysSafe(c: Config, b: Behavior, n: nat)
    requires IsBehavior(c, b) && n < |b.states|
    ensures Safe(c, b.states[n])
  {
    if n == 0 {
      SafeInit(c);
    } else {
      AlwaysSafe(c, b, n - 1);
      StepKeepsSafe(c, b.states[n - 1], b.labels[n - 1]);
    }
  }
}
