# Verification of the msgate mail gateway

msgate takes mail over SMTP, queues it in a database table, and delivers it through Exchange Web Services. This project
models the parts of it where several things happen at once or where one text must be read back by somebody else, and
proves what they promise. `dafny verify dfyconfig.toml` checks everything.

**The delivery queue** (`DeliveryModel`, `DeliverySafety`, `DeliveryRuns`, `DeliveryBounds`, `DeliveryTiming`,
`DeliveryFaults`, `DeliveryLimits`, `DeliveryScenarios`, `DeliveryCalls`). Acceptors, N workers, the shared circuit
breaker and the counters form one transition system. Each committed statement, lock section and send call is a step of
its own, and any two threads interleave between any two steps: the SELECT of a claim and its guarded UPDATE are two
steps, so are the backpressure check and the insert, and so are committing an outcome, publishing it and reading it
back. Clocks, send outcomes and exceptions are chosen freely. What is proved holds for every run from an empty table,
for every number of workers and acceptors, every threshold and cooldown. A *run* is a `Behavior`; `Tally` counts the
steps of a kind in it.

**The objects behind the steps** (`CircuitBreaker`, `Metrics`, `Repository`, `Gateway`, `Backoff`). The breaker, the
metrics registry, the message table, the worker loop and the SMTP handler are classes with the fields and methods of the
program. Every method of `Gateway.Process` takes the steps it stands for, so its loop is a run of the transition system
by construction, and each invariant of the transition system is an invariant of the object.

**TLS negotiation and sending** (`TlsProfiles`, `TlsCache`, `TlsNegotiation`, `EwsSending`). The two-level cache is
compared with one plain map, over all sequences of operations. Mode soundness rests on the cache key being injective.
The nested retries get exact numeric bounds, which `DeliveryCalls` carries to the whole life of a message.

**Texts that are read back** (`Text`, `PdfString`, `DigestPdf`, `DigestPage`, `Sanitizer`). For the PDF digest a reader is
modelled as section 7 of ISO 32000-1 describes one: it finds the cross-reference table from the end of the file, follows
an entry, counts the bytes of the stream, and reads from it, drawing by drawing, font size, position and a literal string
with its escapes. The sanitizer is run on its own result.

**Events and schedules** (`EventHub`, `DigestScheduler`). The hub's fan-out is compared with the log of everything
published; the digest scheduler with the history of what it sent.

Words, sizes and limits the program fixes stand as literals in small lemmas beside the definitions they check (`ModesInWords`,
`ModeReadsBack`, `ProfilesInWords`, `TlsFailuresInWords`, `FirstDelays`, `FileInWords`, `ObjectsInWords`, `PageInWords`,
`SpacesInNumbers`, `OneByteEach`, `RecentIsLast`), so that changing a definition alone does not verify.

Where a promise fails, the model keeps what the code does and the theorem says exactly when the promise holds:

- A claim checks the status again but not the retry time, so due times are respected in all runs if and only if there is
  at most one worker (`ClaimsAreDueIff`). The same holds for the status read back after `process_row`
  (`RefreshesSeeOutcomesIff`). Where every committed outcome ends up, told to the breaker or not and why, is an equation for
  any number of workers (`HearingLedger`); outcomes are lost because they are read back too late if and only if there are
  two workers or more (`OutcomesAreHeardIff`). Outcomes whose announcement or reading back raises are lost with one, too.
- No message is delivered twice if and only if no exception met between a successful send and the end of its announcement
  reads as retriable, which is the guard of the branch that reschedules; other exceptions there are harmless
  (`SentAtMostOnceIff`, and `SuccessBound` for single runs). SENT is final if and only if nothing raises between its commit
  and the end of its announcement; committing it may raise (`SentIsFinalIff`). Such exceptions are real: a commit can fail
  with "server closed the connection unexpectedly", and after the commit the row is expired, so that naming it in the log
  line and in the event (`src/msgate/queue/processor.py:73-80`, with the session factory of `src/msgate/db/session.py:43`)
  loads it again, which can fail with the pool's "connection timed out". Both texts read as retriable.
- The limits of eight claims, eight sends, 32 send calls and 615 seconds of backoff for one message are attained by some run
  for every configuration with a worker (`LimitsAreAttained`, `SendCallsAreAttained`).
- The pending limit is not `max_pending` but `max_pending + N + K - 1` for N workers and K acceptors, and some run
  attains it (`PendingBound`, `PendingBoundIsAttained`).
- The cache equals a plain map over all sequences if and only if no store fails to reach the disk (`AlwaysPlainIff`), and
  from a given state on if and only if every entry in memory reads as the disk does (`PlainFromHereIff`).
- The cache key identifies endpoints for all hosts a URL can have (`KeysIdentifyEndpoints`); it would not for a host with
  both a colon and a bar (`BarsInHostsCollide`), which no configuration can carry.
- A PDF string is read back if and only if its escaped form has at most 200 characters (`LiteralRoundTrip`); so is each line
  of a digest in its place on the page (`EachLineIsThere`).
- An hour above 22 stands for 23 (`NothingBeforeItsHour`, `TriedAtItsHour`).
- With a default domain a sanitized name is stable if and only if the input has an '@', or no separator, or a single
  separator between two parts (`SettledWithDefaultIff`); otherwise a second round changes it, and a name that keeps a
  backslash gets the domain once more in every round.
- The docstring of the breaker speaks of "a probe" after the cooldown. The code lets every caller through while the
  breaker is half open, and so does the model.
- `auth_errors_24h` is never reset; it counts all failed logins since the start, and the model says so.

## Model

| member | source | states |
|---|---|---|
| DeliverySafety.AlwaysSafe | src/msgate/queue/worker.py:105-146 | The inductive invariant of all interleavings: attempts fit the status, no two workers hold one row, a worker's position agrees with the row it holds, the gauge counts the workers inside |
| DeliverySafety.StepKeepsSafe | src/msgate/queue/repository.py:112-139 | Every single step of every thread keeps that invariant, from any state that has it |
| DeliveryRuns.OwnershipLedger | src/msgate/queue/repository.py:121-139 | A row is PROCESSING exactly as often as it has an owner or an exception has escaped with it: ownership is neither duplicated nor lost |
| DeliveryRuns.ExclusiveClaim | src/msgate/queue/repository.py:112-139 | In every interleaving each PROCESSING row is owned by exactly one worker or orphaned by an escaped exception, never both, and a row is orphaned at most once |
| DeliveryRuns.SendsNeverOverlap | src/msgate/queue/processor.py:59-71 | When a send of a message begins, no other worker is inside a send of it, and starting it moves only that worker |
| DeliveryRuns.OrphansStay | src/msgate/queue/processor.py:47-57 | Nothing ever reclaims a row whose processing raised: it stays in PROCESSING unchanged in every later state |
| DeliveryRuns.AttemptsAreClaims | src/msgate/queue/repository.py:121-134 | The attempts column is the number of claims of the row in the run |
| DeliveryRuns.AttemptBound | src/msgate/queue/processor.py:84-106 | QUEUED rows were never claimed, RETRYING rows 1 to 7 times, PROCESSING, SENT and FAILED rows 1 to 8 times |
| DeliveryRuns.RankFallsIff | src/msgate/queue/processor.py:59-106 | Any change of a row brings it nearer to its end, exactly unless a worker handles its own delivery as an error because announcing it raised |
| DeliveryRuns.ClaimsPerAccept | src/msgate/queue/worker.py:110-118 | M accepted messages cause at most 8 M claims, in any run |
| DeliveryRuns.RowsByStatus | src/msgate/queue/repository.py:55-77 | Accepted messages equal the sum of the rows in the five statuses, in every reachable state |
| DeliveryRuns.ClaimsTotal | src/msgate/queue/repository.py:129-135 | The attempts of all rows add up to all claims ever made |
| DeliveryRuns.Conservation | src/msgate/observability/metrics.py:81-89 | All claims are accounted for: sent, failed and retried counters, PROCESSING rows, outcomes about to be published, not-configured failures, and corrections that vanish when publishing does not raise |
| DeliveryRuns.CountersAreOutcomes | src/msgate/observability/metrics.py:81-89 | Counter by counter: every commit of SENT, RETRYING or FAILED is in the counter of its own name, about to be published, or was never published because announcing it raised |
| DeliveryRuns.GaugeIsExact | src/msgate/observability/metrics.py:54-60 | The in-flight gauge is the number of workers inside `process_row`, at most N, and its clamp at zero never acts |
| DeliveryRuns.HearingLedger | src/msgate/queue/worker.py:119-145 | For any number of workers, the committed outcomes are those the breaker was told of, those read back too late, those whose announcement or reading back raised, and those on their way |
| DeliveryRuns.SuccessLedger | src/msgate/queue/processor.py:59-106 | Successful sends of a message, step by step, against SENT, sends not yet marked, and faults after the send |
| DeliveryRuns.SuccessBound | src/msgate/queue/processor.py:59-106 | At most one send of a message succeeds, and one more for each error after a successful send that reads as retriable; errors of other kinds never add one |
| DeliveryRuns.ChancesLeft | src/msgate/queue/processor.py:82-86 | The same with what is left: successes so far and the ways in which the message can still be sent never exceed one plus the retriable faults |
| DeliveryRuns.FailedForCause | src/msgate/queue/processor.py:82-106 | A message is given up before its eighth attempt only if it was not configured or an error met with it is not retriable; retriable errors alone give it all eight |
| DeliveryRuns.FailedStays | src/msgate/queue/repository.py:178-183 | FAILED is absorbing, unconditionally |
| DeliveryRuns.SentStays | src/msgate/queue/repository.py:160-165 | SENT is absorbing as long as announcing this message's delivery never raises |
| DeliveryRuns.SendBound | src/msgate/queue/processor.py:84 | The driver is called at most once per claim and at most eight times per message |
| DeliveryRuns.AcceptedIsKept | src/msgate/smtp/handler.py:83-105 | A message answered 250 was inserted exactly once and has exactly one row in every later state; inserts, replies and lost replies balance |
| DeliveryCalls.LifetimeSendCalls | src/msgate/drivers/ews.py:23-34 | Assuming that each driver call makes at most the four send calls that SendWithFailover proves of one, one message causes at most 32 in its life |
| DeliveryCalls.SendCallsAreAttained | src/msgate/drivers/ews.py:23-34 | With a driver whose calls all make four, for every configuration with a worker some run comes to exactly 32 |
| DeliveryBounds.PendingBound | src/msgate/queue/service.py:54-77 | With N workers and K interleaving acceptors at most max_pending + N + K - 1 rows are pending (none if max_pending is below one), plus one per unchecked test message |
| DeliveryBounds.PendingBoundIsAttained | src/msgate/smtp/handler.py:48-93 | For every configuration some run without test messages reaches that bound, so it cannot be improved |
| DeliveryBounds.OpenCircuitBound | src/msgate/queue/worker.py:110-118 | From the opening of the breaker until it leaves the open state, at most N - 1 claims start |
| DeliveryBounds.LifetimeDelay | src/msgate/queue/backoff.py:30-35 | All backoff ever scheduled for one message comes to at most 615 seconds |
| DeliveryBounds.ScheduledIsLadder | src/msgate/queue/processor.py:84-97 | The backoff scheduled for a message in any run is exactly the sum of the first delays of the ladder, one for each attempt that was put back |
| DeliveryLimits.LimitsAreAttained | src/msgate/queue/processor.py:82-106 | For every configuration with a worker some run, in which nothing but sends raises, claims a message 8 times, sends it 8 times, schedules 615 seconds for it and ends with it FAILED |
| DeliveryTiming.ClaimsAreDueIff | src/msgate/queue/repository.py:96-134 | No claim comes before the retry time, in all runs, if and only if there is at most one worker |
| DeliveryTiming.RefreshesSeeOutcomesIff | src/msgate/queue/worker.py:138 | Every refresh that is made sees an outcome, in all runs, if and only if there is at most one worker |
| DeliveryTiming.OutcomesAreHeardIff | src/msgate/queue/worker.py:138-145 | No outcome is read back too late for the breaker to hear of it, in all runs, if and only if there is at most one worker |
| DeliveryTiming.BackoffIsRespected | src/msgate/queue/repository.py:168-175 | With one worker a claim comes at least the scheduled delay after each earlier retry of the message |
| DeliveryFaults.SentAtMostOnceIff | src/msgate/queue/processor.py:72-86 | For every set of fault kinds: no run that meets only these delivers a message twice if and only if none of them reads as retriable (or nobody works) |
| DeliveryFaults.SentIsFinalIff | src/msgate/queue/processor.py:72-106 | For every set of fault kinds: SENT is final in all runs that meet only these if and only if none of them strikes after the commit of SENT (or nobody works); a raising commit never unsets SENT |
| CircuitBreaking.ObservationIsHistory | src/msgate/queue/circuit_breaker.py:61-89 | After any calls, what a caller observes is a function of the recorded outcomes and the time; polling never changes a later observation |
| CircuitBreaking.HalfOpenReopens | src/msgate/queue/circuit_breaker.py:78-89 | One failure while half open opens the breaker again, whatever the threshold |
| CircuitBreaking.FailuresInARow | src/msgate/queue/circuit_breaker.py:78-89 | Failures in a row at one instant leave a closed breaker closed exactly while threshold is not reached, and open from then on |
| CircuitBreaking.AgreesFail | src/msgate/queue/circuit_breaker.py:78-83 | Recording a failure extends the streak of the history the fields stand for |
| CircuitBreaking.CircuitBreaker.MaybeHalfOpen | src/msgate/queue/circuit_breaker.py:85-89 | Leaves the state that the recorded history and the present time call for |
| CircuitBreaking.CircuitBreaker.ReadState | src/msgate/queue/circuit_breaker.py:61-65 | Returns the state that history and time call for |
| CircuitBreaking.CircuitBreaker.Allow | src/msgate/queue/circuit_breaker.py:67-70 | Refuses exactly while the last failure of a long enough streak is younger than the cooldown |
| CircuitBreaking.CircuitBreaker.RecordSuccess | src/msgate/queue/circuit_breaker.py:72-76 | Extends the history by a success and keeps the fields in agreement with it |
| CircuitBreaking.CircuitBreaker.RecordFailure | src/msgate/queue/circuit_breaker.py:78-83 | Extends the history by a failure and keeps the fields in agreement with it |
| Backoff.SecondsIsCappedDoubling | src/msgate/queue/backoff.py:30-35 | The closed formula is the documented ladder: start at the base, double, never pass the cap |
| Backoff.SecondsMonotone | src/msgate/queue/backoff.py:30-35 | A later attempt never waits less, for any attempt numbers, cap and positive base |
| Backoff.SevenRetries | src/msgate/queue/processor.py:84-86 | The seven possible delays come to 615 seconds |
| Metrics.MetricsRegistry.OnEvent | src/msgate/observability/metrics.py:81-89 | Exactly the counter of the event's kind goes up by one; other kinds change nothing |
| Metrics.MetricsRegistry.DecInFlight | src/msgate/observability/metrics.py:58-60 | One less, but never below zero |
| Repository.NothingOrFirst | src/msgate/queue/repository.py:96-109 | Either nothing is due or some due row is the earliest due one |
| Repository.PendingIsCount | src/msgate/queue/repository.py:142-150 | Counting the QUEUED and RETRYING rows gives the sum that the bounds are about |
| Repository.MessageTable.SelectFirst | src/msgate/queue/repository.py:96-109 | Returns an earliest due row, and nothing only if nothing is due |
| Repository.MessageTable.ClaimRow | src/msgate/queue/repository.py:121-137 | Matches exactly if the row is still pending, then sets PROCESSING and adds one attempt; otherwise changes nothing |
| Repository.MessageTable.InsertMessage | src/msgate/queue/repository.py:55-77 | Adds one QUEUED row that is due at once and leaves the others alone |
| Gateway.ReachableIsInvariant | src/msgate/queue/worker.py:105-146 | The states of runs are closed under all steps and safe, so they may stand as the invariant of the wired objects |
| Gateway.HandledInNumbers | src/msgate/queue/processor.py:82-106 | After an error a row at attempts 1 to 7 is retried 5, 10, 20, 40, 80, 160 or 300 seconds later if the error is retriable; at eight attempts or for any other error it fails; attempts and creation time stay |
| Gateway.Process.ClaimNext | src/msgate/queue/repository.py:112-139 | With one thread at work, claims the earliest due row and nothing else, or finds nothing due; if the database raises, nothing is committed, except when reloading raises, which leaves the claim behind |
| Gateway.Process.ProcessRow | src/msgate/queue/processor.py:28-106 | Turns the claimed row into sent, retry, failed or leaves it, and raises or not, exactly as configuration, payload, send, commits and publishing decide, by steps of the model |
| Gateway.Process.Confirm | src/msgate/queue/processor.py:72-106 | What becomes of a row after a successful send for every combination of raising commits and announcements |
| Gateway.Process.HandleError | src/msgate/queue/processor.py:82-106 | Retry with backoff, in numbers, exactly for a retriable error at one to seven attempts, else failure; an exception of its own commit leaves the row as it was |
| Gateway.Process.RecordOutcome | src/msgate/queue/worker.py:138-145 | Records a success for SENT, a failure for FAILED and RETRYING, and nothing otherwise |
| Gateway.Process.Finish | src/msgate/queue/worker.py:119-145 | Whether `process_row` raised or not the worker is idle again; the breaker is told the outcome in the row exactly if neither it nor the refresh raised |
| Gateway.Process.Deliver | src/msgate/queue/worker.py:119-145 | A delivery that does not raise tells the breaker exactly one outcome: a success if the send worked and was announced, else a failure at the time it ended; one that raises tells nothing |
| Gateway.Process.LoopTurn | src/msgate/queue/worker.py:110-145 | One turn of the loop: stops, finds the circuit open, finds nothing due, carries one earliest due row to its outcome with exactly one claim, or raises; what is committed, how long it took and what the breaker was told in every case |
| Gateway.Process.Drain | src/msgate/queue/worker.py:105-146 | Terminates for any number of rows, outcomes and exceptions; returns only when stopped, when the circuit is open, when nothing is due, or by an exception that a turn met; says truly whether it claimed anything; the breaker hears exactly the outcomes of the turns in order, and if all fail at once it opens after exactly the failures that were missing to the threshold |
| Gateway.Process.CheckBackpressure | src/msgate/queue/service.py:54-77 | Defers with 451 while the observed circuit is open, with 452 while the queue is full, lets the exception of a raising count through, and counts exactly the deferrals |
| Gateway.Process.HandleData | src/msgate/smtp/handler.py:33-105 | A row is inserted exactly when relaying is allowed and all checks pass; 250 is answered only then; every reply for every failing check, in their order |
| Gateway.Process.InsertTest | src/msgate/queue/service.py:128-157 | A test message is inserted whatever the breaker and the pending count say |
| TlsProfiles.KeysIdentifyEndpoints | src/msgate/tls/cache.py:23-34 | For all hosts a URL can have (no bar, or no colon) two endpoints have the same key if and only if they agree up to host case and None or empty CA file, whatever bars and equal signs the CA path has |
| TlsProfiles.ModesInWords | src/msgate/tls/profiles.py:11-14 | Which words of the configuration are which mode, and no other; the three ladders profile by profile |
| TlsProfiles.Ladder | src/msgate/tls/profiles.py:64-75 | A modern-only ladder holds nothing but the modern profile, a legacy ladder never the modern one |
| TlsCaching.CacheRefinesMap | src/msgate/tls/cache.py:37-72 | Over any operations whose stores reach the disk, the two levels show what one plain map would, and memory stays part of the disk |
| TlsCaching.LookingIsInvisible | src/msgate/tls/cache.py:70-72 | A lookup or clearing the memory changes nothing that is seen later |
| TlsCaching.AlwaysPlainIff | src/msgate/tls/cache.py:49-56 | The refinement holds over all sequences if and only if failed writes are excluded |
| TlsCaching.PlainFromHereIff | src/msgate/tls/cache.py:37-72 | After anything, failed writes included: all later sequences with saved stores show what the plain map on the disk would, if and only if every entry in memory reads as the disk does |
| TlsCaching.TlsCache.GetCached | src/msgate/tls/cache.py:37-46 | Returns what the plain map holds when the levels are coherent, and keeps them coherent |
| TlsCaching.TlsCache.PutCached | src/msgate/tls/cache.py:49-56 | Memory and disk get the entry; memory alone if the write fails |
| TlsCaching.TlsCache.Forget | src/msgate/tls/cache.py:59-67 | Both levels lose the entry; a failed write leaves the disk as it was and is reported |
| TlsCaching.TlsCache.DropMemory | src/msgate/tls/cache.py:70-72 | Only the memory level is emptied |
| TlsNegotiation.ModeSoundness | src/msgate/tls/negotiate.py:43-100 | After any operations of endpoints of mixed modes, failed writes included, what is found for an endpoint lies in its own ladder: modern-only is never served legacy |
| TlsNegotiation.RunsStaySound | src/msgate/tls/cache.py:49-72 | Soundness of both cache levels is kept by every run |
| TlsNegotiation.NegotiationErrorsAreTlsFailures | src/msgate/tls/negotiate.py:146-161 | A failed negotiation, an unknown mode and a corrupt entry all count as TLS failures and are tried again |
| EwsSending.EwsClient.WalkLadder | src/msgate/tls/negotiate.py:77-100 | Returns and stores the first profile in ladder order whose probe works, and stores no other; if none works the error quotes the last probe |
| EwsSending.EwsClient.Negotiate | src/msgate/tls/negotiate.py:61-100 | The result lies in the ladder and is what the cache then holds; a hit needs no probe unless forced; a miss gives the first profile that works, and success means that there is one |
| EwsSending.EwsClient.DropAccounts | src/msgate/ews/account_cache.py:34-41 | Exactly the accounts of that user are gone |
| EwsSending.EwsClient.FindOrBuildAccount | src/msgate/ews/client.py:73-100 | An account cached under the key is returned again and nothing is built; otherwise the account is new and cached under the key |
| EwsSending.ProfileKeepsTheWord | src/msgate/tls/profiles.py:64-75 | From the configured word on: an endpoint set to "modern" is called with the modern profile only, one set to "legacy" never with it |
| EwsSending.EwsClient.AttemptOn | src/msgate/ews/client.py:211-239 | An attempt makes its one call exactly if a profile is cached or found, the context, the address, the account and the message work; it then ends as the call does, and otherwise fails |
| EwsSending.EwsClient.TryToSend | src/msgate/ews/client.py:211-239 | The same from the configuration on: an unknown mode makes no call; what the outside gave for this attempt decides alone |
| EwsSending.EwsClient.SendMime | src/msgate/ews/client.py:198-252 | Exactly one attempt, and exactly after a TLS failure one more, which is forced; each ends as its send call does or fails without one, and the first makes its call exactly if everything before it works; the second call goes through an account built since, each with a profile the configured word allows; at most three probes an attempt; the result is that of the last attempt |
| EwsSending.EwsClient.SendWithFailover | src/msgate/drivers/ews.py:23-34 | All attempts and calls on the primary come first; the failover is tried if and only if the last of them raised and there is one; the caller gets what the last attempt gave, a failing failover's error included; at most four send calls and twelve probes |
| PdfString.ChainedIsOnePass | src/msgate/ops/digest_pdf.py:55-62 | The chained replaces escape every character on its own, so their order does no harm |
| PdfString.LiteralRoundTrip | src/msgate/ops/digest_pdf.py:55-62 | Whatever follows, the literal is read back as the text with line ends as spaces, up to its own last parenthesis, if and only if the escaped text has at most 200 characters |
| PdfString.EncodedRoundTrip | src/msgate/ops/digest_pdf.py:15 | The same for the Latin-1 bytes, where foreign characters come back as question marks |
| DigestPage.ShowReads | src/msgate/ops/digest_pdf.py:8-15 | A reader of the page gets size, place and text of a drawn line back, and stands right behind it, if and only if the escaped text has at most 200 characters |
| DigestPage.DigestShowsItsText | src/msgate/ops/digest_pdf.py:6-15 | Read from object 4 of the file: the title at size 14 and (50, 742), line i at size 10 and (50, 712 - 14 i) for the first 48 lines, each with its own text, and nothing more, for all texts that fit |
| DigestPage.EachLineIsThere | src/msgate/ops/digest_pdf.py:8-15 | The same of each line by itself, whatever the other lines are: it is read back in its place if and only if its escaped text has at most 200 characters |
| DigestPdf.EntriesLocateObjects | src/msgate/ops/digest_pdf.py:35-46 | A reader starting from startxref finds the table, and its k-th entry is twenty bytes that lead to the first byte of object k |
| DigestPdf.DigestIsReadable | src/msgate/ops/digest_pdf.py:6-52 | For every title and all lines on the default page: each entry leads to its object, the object begins with its number, and /Length is the stream's byte count |
| DigestPdf.StreamFits | src/msgate/ops/digest_pdf.py:8-15 | On the default page at most 49 lines are drawn and the stream stays below twelve thousand bytes |
| DigestPdf.WriteFile | src/msgate/ops/digest_pdf.py:35-52 | The loops that note offsets while writing give the file whose table the theorems are about |
| DigestPdf.TextPdf | src/msgate/ops/digest_pdf.py:6-52 | The builder gives that file for the title and the lines that fit |
| EventHubs.RecentOneMore | src/msgate/events/hub.py:45 | The bounded history of a longer log is the bounded extension of the history |
| EventHubs.StretchIsReplayThenLive | src/msgate/events/hub.py:71-77 | A subscriber's stretch of the log is the history at its subscription followed by what was published since |
| EventHubs.EventHub.PublishSync | src/msgate/events/hub.py:52-69 | The event reaches every registered subscriber with room, gap-free and in order; a subscriber is dropped exactly when its consumer is 256 events behind, and keeps a prefix; the history stays the last events |
| EventHubs.EventHub.Subscribe | src/msgate/events/hub.py:71-77 | The new queue holds the whole history and the call returns if and only if that is at most 256 events; otherwise the lock is never released |
| EventHubs.EventHub.Unsubscribe | src/msgate/events/hub.py:79-81 | Only that queue is removed, unless a blocked replay holds the lock |
| EventHubs.EventHub.Consume | src/msgate/api/routes/ws.py:36-47 | The k-th event a consumer takes is the k-th event of its stretch of the log |
| DigestScheduling.OncePerPeriod | src/msgate/ops/digest_scheduler.py:51-81 | With a clock that does not go back, the digests sent for a date or ISO week number exactly one if one was remembered, plus those whose marker could not be saved |
| DigestScheduling.AttemptsIff | src/msgate/ops/digest_scheduler.py:113-125 | A tick tries to send if and only if it gets there, the digest is on, its clamped hour and weekday have come, and none for the period was remembered, in this run or in what was stored before it |
| DigestScheduling.NothingBeforeItsHour | src/msgate/ops/digest_scheduler.py:113-125 | What is sent is sent at its hour or later, or at 23, on its weekday, to somebody, and not for a period already remembered, in numbers |
| DigestScheduling.TriedAtItsHour | src/msgate/ops/digest_scheduler.py:113-125 | From its hour on, or at 23, a digest that is on is tried exactly if it was not remembered for the period |
| DigestScheduling.MarkerIsHistory | src/msgate/ops/digest_state.py:20-46 | The stored marker names a period that is not over if and only if a digest for it was remembered in the run, or it was stored before and nothing was remembered since |
| DigestScheduling.MarkersFollowSends | src/msgate/ops/digest_scheduler.py:61-80 | A tick sets a marker exactly when that digest went out and was saved; daily and weekly in one tick lose neither |
| DigestScheduling.FailureStaysDue | src/msgate/ops/digest_scheduler.py:63-67 | A digest that failed is due again at every later hour of that date |
| DigestScheduling.LostMarkerSendsTwice | src/msgate/ops/digest_scheduler.py:64-66 | A failed save sends the same date twice |
| DigestScheduling.ClockGoingBackSendsTwice | src/msgate/ops/digest_scheduler.py:113-117 | So does a clock that goes back a day and forward again, although every marker was saved |
| DigestScheduling.DigestScheduler.RunTick | src/msgate/ops/digest_scheduler.py:51-81 | One evaluation leaves the markers the theorems speak of and returns exactly the periods that were remembered |
| Sanitizer.SettledWithoutDefault | src/msgate/auth/sanitize.py:18-68 | Without a default domain the server login of any accepted input is unchanged by a second round; user and domain as well, if and only if the input has no slash behind backslashes |
| Sanitizer.SettledWithDefaultIff | src/msgate/auth/sanitize.py:18-68 | With a plain default domain the result is stable if and only if the input has an '@', or no separator, or its first backslash (else its first slash) is its only separator and has a part on either side; then all fields are |
| Sanitizer.KeptBackslashIff | src/msgate/auth/sanitize.py:32-43 | The domain keeps a backslash if and only if the input has a slash behind all its backslashes and something behind it |
| Sanitizer.PlainNamesSettle | src/msgate/auth/sanitize.py:58-67 | A login without the three special characters gets the default domain once and is stable |
| Sanitizer.KnownForms | src/msgate/auth/sanitize.py:18-68 | `DOMAIN\user`, `DOMAIN/user`, `user@domain` and a bare user give the user and the domain they name, for all plain names |
| Sanitizer.DomainsPileUp | src/msgate/auth/sanitize.py:58-67 | A name that keeps a backslash gets the default domain once more in every round |
| Sanitizer.TwoBackslashes | src/msgate/auth/sanitize.py:32-43 | Such a name exists: two backslashes fall through both rounds of the loop |
| Sanitizer.JoinedSplits | src/msgate/auth/sanitize.py:31-43 | A name put together from domain and user comes apart the same way exactly if the domain has no backslash |
| Sanitizer.StripShape | src/msgate/auth/sanitize.py:27 | Stripping takes off blanks at the ends and no other character |

## Left out

- SQLAlchemy sessions, SQLite and Postgres isolation, migrations: every committed statement is one atomic step on a sequence of rows, which are never deleted; random message ids are taken to be distinct, a row is its position.
- LifetimeSendCalls: the four send calls per driver call are a hypothesis, because the queue's model takes a driver call as one step; SendWithFailover proves them of the driver.
- A commit that takes effect and is reported as failed: a raising `mark_sent` or claim is modelled as not committed.
- `mark_processing` with `already_claimed=False`, and stopping and restarting the worker threads: the set of N workers is fixed.
- The wake event, polling interval and idle waiting of `_run`: they decide when a worker looks, and any worker may look at any time.
- Running without events or metrics: both are taken to be wired, as the application does.
- Whether an error is retriable (`is_retriable_error`) is free in every step; the words it looks for are not modelled.
- Payload decoding, MIME building, encryption, JSON, exchangelib, SSL contexts, sockets and probes: their results are inputs, chosen anew for every call.
- URL parsing in `endpoint_from_url`: host and port are given; a host is taken to have no '|' or no ':', since a URL's host ends at its first colon unless it is an address in brackets, which has no bar.
- Lower-casing is that of ASCII letters; other letters in host names and error texts are left as they are.
- The installed HTTP adapter is one setting of the whole process in the code: `EwsSending` follows one thread, and another thread's negotiation between preparing and sending is not modelled.
- Changes of the cache file by other processes, and entries that are not text: the disk level is a map of texts.
- `resolve_primary_smtp`, message building and attachments in `src/msgate/ews/client.py`: steps that may raise, nothing more.
- Health checks, failover health, and drivers other than Exchange.
- SMTP dialogue around `handle_DATA`: authentication, allowlist and credentials are yes-or-no inputs; the queue count in the 452 text is left out.
- Real-valued seconds without rounding stand for floating-point times.
- Threads that call `publish_sync` at the same time: publish and subscribe are atomic, as on the event loop.
- Event payloads, time stamps and webhooks: an event is its kind and message.
- The report a digest contains, `window_for` and manual sending; corrupt stored markers read as no marker.
- Dates are day numbers counted from a Monday, with ISO weeks as blocks of seven, instead of formatted strings.
- The PDF reader follows the table, the stream length and literal strings; page tree, fonts and operators are not interpreted.
- FastAPI routes, templates, configuration merging, logging, capacity alerts.
