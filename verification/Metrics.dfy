/** The metrics registry (src/msgate/observability/metrics.py), without the gauges other parts only assign. */
module Metrics {
  import opened DeliveryModel

  class MetricsRegistry {
    var messagesSent: nat
    var messagesFailed: nat
    var messagesRetried: nat
    var smtpDeferred: nat
    var authFailures: nat
    var inFlight: nat

    /** The counters the queue drives. */
    ghost function View(): Counters
      reads this
    {
      Counters(messagesSent, messagesFailed, messagesRetried, smtpDeferred, inFlight)
    }

    constructor ()
      ensures View() == Counters(0, 0, 0, 0, 0) && authFailures == 0
    {
      messagesSent, messagesFailed, messagesRetried, smtpDeferred, authFailures, inFlight := 0, 0, 0, 0, 0, 0;
    }

    method IncSmtpDeferred()
      modifies this`smtpDeferred
      ensures smtpDeferred == old(smtpDeferred) + 1
    {
      smtpDeferred := smtpDeferred + 1;
    }

    method IncInFlight()
      modifies this`inFlight
      ensures inFlight == old(inFlight) + 1
    {
      inFlight := inFlight + 1;
    }

    /** The gauge is clamped at zero; `GaugeIsExact` shows that the clamp never acts. */
    method DecInFlight()
      modifies this`inFlight
      ensures inFlight == if old(inFlight) >= 1 then old(inFlight) - 1 else 0
    {
      inFlight := if inFlight >= 1 then inFlight - 1 else 0;
    }

    /** Four event kinds have a counter; every other kind changes nothing. */
    method OnEvent(kind: string)
      modifies this`messagesSent, this`messagesFailed, this`messagesRetried, this`authFailures
      ensures authFailures == old(authFailures) + (if kind == "auth.fail" then 1 else 0)
      ensures messagesSent == old(messagesSent) + (if kind == "queue.sent" then 1 else 0)
      ensures messagesFailed == old(messagesFailed) + (if kind == "queue.failed" then 1 else 0)
      ensures messagesRetried == old(messagesRetried) + (if kind == "queue.retry" then 1 else 0)
    {
      if kind == "auth.fail" {
        authFailures := authFailures + 1;
      } else if kind == "queue.sent" {
        messagesSent := messagesSent + 1;
      } else if kind == "queue.failed" {
        messagesFailed := messagesFailed + 1;
      } else if kind == "queue.retry" {
        messagesRetried := messagesRetried + 1;
      }
    }
  }
}
