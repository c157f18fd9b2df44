/**
 Pieces from which concrete runs are put together. They are about any set of states closed under steps, together with
 the weight the steps have had so far; the states reached by runs are such a set.
 */
module DeliveryScenarios {
  import opened Options
  import opened Sums
  import opened CircuitBreaking
  import opened DeliveryModel

  type Reach = (State, int) -> bool

  /** An exception after a successful send: from committing SENT, or from logging or publishing what was committed. */
  datatype Fault = MarkingRaises(retriable: bool) | AnnouncingRaises(retriable: bool)

  function FaultOf(l: Label): Option<Fault> {
    if l.Worker? && l.act.MarkSentRaises? then Some(MarkingRaises(l.act.retriable))
    else if l.Worker? && l.act.PublishSentRaises? then Some(AnnouncingRaises(l.act.retriable))
    else None
  }

  /** After its successful sends the run meets none but these exceptions. */
  ghost predicate OnlyFaults(b: Behavior, faults: set<Fault>) {
    forall l :: l in b.labels && FaultOf(l).Some? ==> FaultOf(l).value in faults
  }

  /** Closed under all steps without such an exception. */
  ghost predicate ClosedUnderSteps(c: Config, weight: Label -> int, reach: Reach) {
    forall s, k, l :: reach(s, k) && Enabled(c, s, l) && FaultOf(l).None? ==> reach(Apply(c, s, l), k + weight(l))
  }

  /** Closed under the steps with this exception. */
  ghost predicate Admits(c: Config, weight: Label -> int, reach: Reach, fault: Fault) {
    forall s, k, l :: reach(s, k) && Enabled(c, s, l) && FaultOf(l) == Some(fault) ==> reach(Apply(c, s, l), k + weight(l))
  }

  /** Some run with none but these faults ends in `s`, and its steps weigh `k` in all. */
  ghost predicate Reached(c: Config, faults: set<Fault>, weight: Label -> int, s: State, k: int) {
    exists b :: IsBehavior(c, b) && OnlyFaults(b, faults) && Last(b) == s && Sum(b.labels, weight) == k
  }

  ghost function RunsOf(c: Config, faults: set<Fault>, weight: Label -> int): Reach {
    (s: State, k: int) => Reached(c, faults, weight, s, k)
  }

  lemma OneStepFurther(c: Config, faults: set<Fault>, weight: Label -> int, s: State, k: int, l: Label)
    requires Reached(c, faults, weight, s, k) && Enabled(c, s, l)
    requires FaultOf(l).Some? ==> FaultOf(l).value in faults
    ensures Reached(c, faults, weight, Apply(c, s, l), k + weight(l))
  {
    var b :| IsBehavior(c, b) && OnlyFaults(b, faults) && Last(b) == s && Sum(b.labels, weight) == k;
    ExtendIsSegment(c, b, l);
    SumAppend(b.labels, l, weight);
    assert IsBehavior(c, Extend(c, b, l)) && OnlyFaults(Extend(c, b, l), faults);
  }

  lemma RunsAreClosed(c: Config, faults: set<Fault>, weight: Label -> int)
    ensures ClosedUnderSteps(c, weight, RunsOf(c, faults, weight)) && RunsOf(c, faults, weight)(Init(c), 0)
    ensures forall fault :: fault in faults ==> Admits(c, weight, RunsOf(c, faults, weight), fault)
  {
    forall s, k, l | Reached(c, faults, weight, s, k) && Enabled(c, s, l) && (FaultOf(l).Some? ==> FaultOf(l).value in faults)
      ensures Reached(c, faults, weight, Apply(c, s, l), k + weight(l))
    {
      OneStepFurther(c, faults, weight, s, k, l);
    }
    var start := Behavior([], [Init(c)]);
    assert IsBehavior(c, start) && OnlyFaults(start, faults) && Last(start) == Init(c) && Sum(start.labels, weight) == 0;
  }

  /** Nothing a worker does weighs anything, except that its send returns; nor does anything an acceptor does. */
  ghost predicate Quiet(weight: Label -> int) {
    && (forall l: Label :: l.Worker? && !l.act.SendReturns? ==> weight(l) == 0)
    && (forall l: Label :: l.Acceptor? || l.Tick? ==> weight(l) == 0)
  }

  /** A step that weighs nothing. */
  lemma Take(c: Config, weight: Label -> int, reach: Reach, s: State, k: int, l: Label)
    requires ClosedUnderSteps(c, weight, reach) && Quiet(weight) && reach(s, k) && Enabled(c, s, l)
    requires !l.SubmitTest? && !(l.Worker? && l.act.SendReturns?) && FaultOf(l).None?
    ensures reach(Apply(c, s, l), k)
  {
    assert weight(l) == 0;
    assert reach(Apply(c, s, l), k + weight(l));
  }

  ghost function At(s: State, w: nat, pc: WorkerPc): State
    requires w < |s.workers|
  {
    s.(workers := s.workers[w := pc])
  }

  /** The state after worker `w` has claimed row `id`. */
  ghost function Owned(s: State, w: nat, id: nat): State
    requires w < |s.workers| && id < |s.rows|
  {
    At(s, w, Owning(id)).(rows := s.rows[id := Claimed(s.rows[id])])
  }

  ghost function Counting(s: State, inFlight: nat): State {
    s.(counters := s.counters.(inFlight := inFlight))
  }

  /** Worker `w` is let through, selects row `id` and claims it. */
  lemma ClaimRow(c: Config, weight: Label -> int, reach: Reach, s: State, k: int, w: nat, id: nat)
    requires ClosedUnderSteps(c, weight, reach) && Quiet(weight) && reach(s, k)
    requires w < |s.workers| && s.workers[w] == Idle && s.breaker.state == Closed
    requires IsFirstDue(s.rows, s.utc, id)
    ensures reach(Owned(s, w, id), k)
  {
    var l1, l2, l3 := Worker(w, AskCircuit), Worker(w, SelectRow(Some(id))), Worker(w, Claim(id));
    var s1, s2 := At(s, w, Allowed), At(s, w, Selected(id));
    Take(c, weight, reach, s, k, l1);
    assert Apply(c, s, l1) == s1;
    Take(c, weight, reach, s1, k, l2);
    assert Apply(c, s1, l2) == s2;
    Take(c, weight, reach, s2, k, l3);
    assert Apply(c, s2, l3) == Owned(s, w, id);
  }

  /** Worker `w` starts sending the row it owns. */
  lemma StartSend(c: Config, weight: Label -> int, reach: Reach, s: State, k: int, w: nat, id: nat)
    requires ClosedUnderSteps(c, weight, reach) && Quiet(weight) && reach(s, k)
    requires w < |s.workers| && s.workers[w] == Owning(id)
    ensures reach(Counting(At(s, w, Sending(id)), s.counters.inFlight + 1), k)
  {
    var l1, l2 := Worker(w, EnterFlight(id)), Worker(w, BeginSend(id));
    var s1 := Counting(At(s, w, InFlight(id)), s.counters.inFlight + 1);
    Take(c, weight, reach, s, k, l1);
    assert Apply(c, s, l1) == s1;
    Take(c, weight, reach, s1, k, l2);
    assert Apply(c, s1, l2) == Counting(At(s, w, Sending(id)), s.counters.inFlight + 1);
  }

  /** Worker `w` sends the row it owns, and the send fails with a retriable error. */
  lemma FailSend(c: Config, weight: Label -> int, reach: Reach, s: State, k: int, w: nat, id: nat)
    requires ClosedUnderSteps(c, weight, reach) && Quiet(weight) && reach(s, k)
    requires w < |s.workers| && s.workers[w] == Owning(id)
    ensures reach(Counting(At(s, w, Handling(id, true, false)), s.counters.inFlight + 1), k)
  {
    StartSend(c, weight, reach, s, k, w, id);
    var s1, l := Counting(At(s, w, Sending(id)), s.counters.inFlight + 1), Worker(w, SendRaises(id, true));
    Take(c, weight, reach, s1, k, l);
    assert Apply(c, s1, l) == Counting(At(s, w, Handling(id, true, false)), s.counters.inFlight + 1);
  }
}
