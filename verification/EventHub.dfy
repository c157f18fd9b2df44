/** The traffic event hub and its subscribers (src/msgate/events/hub.py). */
module EventHubs {
  import opened Metrics

  datatype TrafficEvent = TrafficEvent(kind: string, message: string)

  /** How many events a subscriber's queue holds at most. */
  const QUEUE_SIZE: nat := 256

  /** What a deque bounded to `size` keeps of everything that was appended. */
  function Recent(log: seq<TrafficEvent>, size: nat): seq<TrafficEvent> {
    if |log| <= size then log else log[|log| - size..]
  }

  /** Appending to what was kept is keeping from what was appended. */
  lemma RecentOneMore(log: seq<TrafficEvent>, event: TrafficEvent, size: nat)
    ensures Recent(log + [event], size) == Recent(Recent(log, size) + [event], size)
  {
    if |log| > size {
      assert (log + [event])[|log| + 1 - size..] == (log[|log| - size..] + [event])[1..];
    }
  }

  /** The last `size` events, in order, or all if there are fewer. */
  lemma RecentIsLast(log: seq<TrafficEvent>, size: nat)
    ensures |Recent(log, size)| == if |log| <= size then |log| else size
    ensures Recent(log, size) == log[|log| - |Recent(log, size)|..]
  {
  }

  function Count(log: seq<TrafficEvent>, kind: string): nat {
    if log == [] then 0 else Count(log[..|log| - 1], kind) + if log[|log| - 1].kind == kind then 1 else 0
  }

  lemma CountOneMore(log: seq<TrafficEvent>, event: TrafficEvent, kind: string)
    ensures Count(log + [event], kind) == Count(log, kind) + if event.kind == kind then 1 else 0
  {
    assert (log + [event])[..|log|] == log;
  }

  lemma StretchesGrow(log: seq<TrafficEvent>, event: TrafficEvent, from: nat, upTo: nat)
    requires from <= upTo <= |log|
    ensures (log + [event])[from..upTo] == log[from..upTo]
    ensures upTo == |log| ==> (log + [event])[from..upTo + 1] == log[from..upTo] + [event]
  {
  }

  /** An `asyncio.Queue` of 256 places. The ghost fields say which stretch of the log it was meant to carry. */
  class SubscriberQueue {
    var items: seq<TrafficEvent>
    ghost var taken: seq<TrafficEvent>
    ghost var from: nat
    ghost var upTo: nat

    constructor (ghost from: nat, ghost upTo: nat)
      ensures items == [] && taken == [] && this.from == from && this.upTo == upTo
    {
      items, taken, this.from, this.upTo := [], [], from, upTo;
    }

    /** Nothing missing, nothing twice, nothing out of order between the two marks. */
    ghost predicate Carries(log: seq<TrafficEvent>)
      reads this
    {
      from <= upTo <= |log| && taken + items == log[from..upTo] && |items| <= QUEUE_SIZE
    }

    /** The consumer's `get` on a queue that has something. */
    method Get() returns (event: TrafficEvent)
      requires items != []
      modifies this`items, this`taken
      ensures event == old(items[0]) && items == old(items[1..]) && taken == old(taken) + [event]
      ensures taken + items == old(taken + items)
    {
      event := items[0];
      items := items[1..];
      taken := taken + [event];
    }
  }

  class EventHub {
    const historySize: nat
    const metrics: MetricsRegistry
    var history: seq<TrafficEvent>
    var subscribers: set<SubscriberQueue>
    var authErrors: nat
    var locked: bool
    ghost var log: seq<TrafficEvent>
    ghost var served: set<SubscriberQueue>

    /** The history is the last events of the log, and the failed logins are counted. */
    ghost predicate Recorded()
      reads this
    {
      history == Recent(log, historySize) && authErrors == Count(log, "auth.fail")
    }

    /**
     A queue that a `subscribe` has returned carries a gap-free stretch of the log, and one that is still registered
     carries everything since it was registered. The one registered queue that was not returned to anybody, if there is
     one, is full.
     */
    ghost predicate Fanned()
      reads this, subscribers, served
    {
      && (forall q :: q in served ==> q.Carries(log))
      && (forall q :: q in subscribers && q in served ==> q.upTo == |log|)
      && (forall q :: q in subscribers && q !in served ==> locked && |q.items| == QUEUE_SIZE)
    }

    ghost predicate Valid()
      reads this, subscribers, served
    {
      Recorded() && Fanned()
    }

    /** How many events of the log the consumer of `q` has not taken yet. */
    ghost function Behind(q: SubscriberQueue): int
      reads this, q
    {
      |log| - q.from - |q.taken|
    }

    constructor (historySize: nat, metrics: MetricsRegistry)
      ensures Valid() && log == [] && served == {} && subscribers == {} && !locked
      ensures this.historySize == historySize && this.metrics == metrics
    {
      this.historySize, this.metrics := historySize, metrics;
      history, subscribers, authErrors, locked, log, served := [], {}, 0, false, [], {};
    }

    /**
     Every registered queue with a free place gets the event; a full one is dropped. For a queue that was returned to its
     consumer that is exactly when the consumer is 256 events behind.
     */
    method PublishSync(kind: string, message: string)
      requires Valid()
      modifies this`history, this`subscribers, this`authErrors, this`log, subscribers, metrics
      ensures Valid() && log == old(log) + [TrafficEvent(kind, message)]
      ensures |history| == if |log| <= historySize then |log| else historySize
      ensures subscribers <= old(subscribers)
      ensures forall q :: q in old(subscribers) && q in served ==> (q in subscribers <==> old(Behind(q)) < 256)
      ensures forall q :: q in old(subscribers) && q !in served ==> q !in subscribers
      ensures forall q :: q in old(subscribers) ==> q.taken == old(q.taken) && q.from == old(q.from)
      ensures forall q :: q in old(subscribers) && q !in subscribers ==> q.items == old(q.items) && q.upTo == old(q.upTo)
      ensures metrics.authFailures == old(metrics.authFailures) + authErrors - old(authErrors)
    {
      var event := TrafficEvent(kind, message);
      Record(event);
      FanOut(event);
    }

    /** The history, the counter of failed logins and the metrics. */
    method Record(event: TrafficEvent)
      requires Recorded()
      modifies this`history, this`authErrors, metrics
      ensures history == Recent(log + [event], historySize) && authErrors == Count(log + [event], "auth.fail")
      ensures |history| == if |log| < historySize then |log| + 1 else historySize
      ensures metrics.authFailures == old(metrics.authFailures) + authErrors - old(authErrors)
    {
      RecentOneMore(log, event, historySize);
      CountOneMore(log, event, "auth.fail");
      history := Recent(history + [event], historySize);
      if event.kind == "auth.fail" {
        authErrors := authErrors + 1;
      }
      metrics.OnEvent(event.kind);
      RecentIsLast(log + [event], historySize);
    }

    /** What a registered queue that was handed out holds is what its consumer is behind. */
    lemma HeldIsBehind(q: SubscriberQueue)
      requires q.Carries(log) && q.upTo == |log|
      ensures |q.items| == Behind(q)
    {
      assert |q.taken + q.items| == q.upTo - q.from;
    }

    /** Delivery to everybody with room, and the removal of everybody else. */
    method FanOut(event: TrafficEvent)
      requires Fanned()
      modifies this`subscribers, this`log, subscribers
      ensures Fanned() && log == old(log) + [event] && subscribers <= old(subscribers)
      ensures forall q :: q in old(subscribers) && q in served ==> (q in subscribers <==> old(Behind(q)) < QUEUE_SIZE)
      ensures forall q :: q in old(subscribers) && q !in served ==> q !in subscribers
      ensures forall q :: q in old(subscribers) ==> q.taken == old(q.taken) && q.from == old(q.from)
      ensures forall q :: q in old(subscribers) && q !in subscribers ==> q.items == old(q.items) && q.upTo == old(q.upTo)
    {
      forall q | q in subscribers && q in served ensures |q.items| == Behind(q) {
        HeldIsBehind(q);
      }
      var dead := Deliver(event);
      log := log + [event];
      forall q | q in served ensures q.Carries(log) {
        StretchesGrow(old(log), event, q.from, old(q.upTo));
      }
      subscribers := subscribers - dead;
    }

    /** `put_nowait` on every registered queue. */
    method Deliver(event: TrafficEvent) returns (dead: set<SubscriberQueue>)
      modifies subscribers
      ensures dead == set q | q in subscribers && old(|q.items|) >= QUEUE_SIZE
      ensures forall q :: q in subscribers ==> q.taken == old(q.taken) && q.from == old(q.from)
      ensures forall q :: q in subscribers - dead ==> q.items == old(q.items) + [event] && q.upTo == old(q.upTo) + 1
      ensures forall q :: q in dead ==> q.items == old(q.items) && q.upTo == old(q.upTo)
    {
      dead := {};
      var rest := subscribers;
      while rest != {}
        invariant rest <= subscribers
        invariant dead == set q | q in subscribers - rest && old(|q.items|) >= QUEUE_SIZE
        invariant forall q :: q in subscribers ==> q.taken == old(q.taken) && q.from == old(q.from)
        invariant forall q :: q in subscribers - rest - dead ==> q.items == old(q.items) + [event] && q.upTo == old(q.upTo) + 1
        invariant forall q :: q in rest + dead ==> q.items == old(q.items) && q.upTo == old(q.upTo)
      {
        var q :| q in rest;
        rest := rest - {q};
        if |q.items| < QUEUE_SIZE {
          q.items := q.items + [event];
          q.upTo := q.upTo + 1;
        } else {
          dead := dead + {q};
        }
      }
    }

    /**
     A new queue with the history in it. When the history does not fit, the replay waits for a consumer that does not have
     the queue yet, while it holds the lock; from then on every `subscribe` and `unsubscribe` waits as well.
     */
    method Subscribe() returns (q: SubscriberQueue, returned: bool)
      requires Valid()
      modifies this`subscribers, this`locked, this`served
      ensures Valid() && fresh(q)
      ensures returned <==> !old(locked) && |history| <= 256
      ensures historySize <= 256 && !old(locked) ==> returned && !locked
      ensures returned ==> !locked && subscribers == old(subscribers) + {q} && served == old(served) + {q}
      ensures returned ==> q.taken == [] && q.items == history && q.from == |log| - |history|
      ensures !returned ==> locked && served == old(served) && subscribers == old(subscribers) + if old(locked) then {} else {q}
    {
      if locked {
        q := new SubscriberQueue(0, 0);
        returned := false;
      } else {
        q, returned := Replay();
        Register(q, returned);
      }
    }

    /** The queue is registered, and handed out or left waiting with the lock held. */
    method Register(q: SubscriberQueue, returned: bool)
      requires Fanned() && !locked && q !in subscribers && q !in served
      requires if returned then q.Carries(log) && q.upTo == |log| else |q.items| == QUEUE_SIZE
      modifies this`subscribers, this`served, this`locked
      ensures Fanned() && locked == !returned && subscribers == old(subscribers) + {q}
      ensures served == old(served) + if returned then {q} else {}
    {
      subscribers := subscribers + {q};
      if returned {
        served := served + {q};
      } else {
        locked := true;
      }
    }

    /** Puts the history into a new queue until there is no more or no more room. */
    method Replay() returns (q: SubscriberQueue, finished: bool)
      requires Recorded()
      ensures fresh(q) && q.taken == [] && finished == (|history| <= QUEUE_SIZE)
      ensures finished ==> q.items == history && q.from == |log| - |history| && q.upTo == |log| && q.Carries(log)
      ensures !finished ==> |q.items| == QUEUE_SIZE
    {
      q := new SubscriberQueue(|log| - |history|, |log|);
      var k := 0;
      while k < |history| && |q.items| < QUEUE_SIZE
        invariant 0 <= k <= |history| && k <= QUEUE_SIZE && q.items == history[..k]
        invariant q.taken == [] && q.from == |log| - |history| && q.upTo == |log|
      {
        q.items := q.items + [history[k]];
        k := k + 1;
      }
      finished := k == |history|;
    }

    method Unsubscribe(q: SubscriberQueue) returns (returned: bool)
      requires Valid()
      modifies this`subscribers
      ensures Valid() && returned == !locked
      ensures subscribers == if returned then old(subscribers) - {q} else old(subscribers)
    {
      returned := !locked;
      if returned {
        subscribers := subscribers - {q};
      }
    }

    /** A consumer reads on, whether its queue is still registered or not. */
    method Consume(q: SubscriberQueue) returns (event: TrafficEvent)
      requires Valid() && q in served && q.items != []
      modifies q
      ensures Valid() && q.from == old(q.from) && q.taken == old(q.taken) + [event]
      ensures event == log[q.from + |old(q.taken)|]
    {
      event := q.Get();
    }
  }

  /**
   What a subscriber gets, taken as a whole: the events kept when it subscribed, then the events published since, as far
   as its queue kept up.
   */
  lemma StretchIsReplayThenLive(log: seq<TrafficEvent>, published: seq<TrafficEvent>, size: nat, upTo: nat)
    requires |log| <= upTo <= |log + published|
    ensures var from := |log| - |Recent(log, size)|;
            (log + published)[from..upTo] == Recent(log, size) + published[..upTo - |log|]
  {
    var from := |log| - |Recent(log, size)|;
    assert (log + published)[from..upTo] == log[from..] + published[..upTo - |log|];
  }
}
