/** From one driver call to the whole life of a message: how many send calls Exchange can see. */
module DeliveryCalls {
  import opened DeliveryModel
  import opened DeliveryRuns
  import opened DeliveryLimits
  import EwsSending

  const CALLS_PER_CLAIM: nat := EwsSending.CALLS_PER_DRIVER_CALL

  /** The send calls made for the message by the first `n` steps, when step `i` makes `calls(i)` if it is a driver call. */
  ghost function SendCalls(b: Behavior, n: nat, id: nat, calls: nat -> nat): nat
    requires n <= |b.labels|
  {
    if n == 0 then 0
    else SendCalls(b, n - 1, id, calls) + if SendsOf(id)(b.labels[n - 1]) == 1 then calls(n - 1) else 0
  }

  lemma {:induction false} CallsPerSend(b: Behavior, n: nat, id: nat, calls: nat -> nat)
    requires n <= |b.labels|
    requires forall i :: calls(i) <= CALLS_PER_CLAIM
    ensures SendCalls(b, n, id, calls) <= CALLS_PER_CLAIM * Tally(b, n, SendsOf(id))
  {
    if n > 0 {
      CallsPerSend(b, n - 1, id, calls);
      TallyStep(b, n - 1, SendsOf(id));
    }
  }

  /**
   If no call of the driver makes more send calls than `EwsClient.SendWithFailover` promises, Exchange sees at most 32 for
   one message in its whole life, in every interleaving of the workers and whatever raises.
   */
  lemma LifetimeSendCalls(c: Config, b: Behavior, n: nat, id: nat, calls: nat -> nat)
    requires IsBehavior(c, b) && n < |b.states|
    requires forall i :: calls(i) <= CALLS_PER_CLAIM
    ensures SendCalls(b, n, id, calls) <= CALLS_PER_CLAIM * Tally(b, n, ClaimsOf(id)) <= 32
  {
    CallsPerSend(b, n, id, calls);
    SendBound(c, b, n, id);
  }

  /** A driver whose calls always use up what they may. */
  function AllFour(step: nat): nat {
    4
  }

  lemma {:induction false} AllFourPerSend(b: Behavior, n: nat, id: nat)
    requires n <= |b.labels|
    ensures SendCalls(b, n, id, AllFour) == 4 * Tally(b, n, SendsOf(id))
  {
    if n > 0 {
      AllFourPerSend(b, n - 1, id);
      TallyStep(b, n - 1, SendsOf(id));
    }
  }

  /** For every configuration with a worker some run comes to 32, so that limit cannot be lowered either. */
  lemma SendCallsAreAttained(c: Config)
    requires c.workers >= 1
    ensures exists b :: IsBehavior(c, b) && SendCalls(b, |b.labels|, 0, AllFour) == 32
  {
    LimitsAreAttained(c);
    var b :| IsBehavior(c, b) && Tally(b, |b.labels|, SendsOf(0)) == 8;
    AllFourPerSend(b, |b.labels|, 0);
    assert SendCalls(b, |b.labels|, 0, AllFour) == 32;
  }
}
