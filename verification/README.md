# Sunny ingest pipeline: verified model

Sunny's server moves records from connectors through an in-process bus to a batch writer, an alert
engine and WebSocket streams. The pieces in between are small hand-written components driven by locks,
channels and clocks. This project models them in Dafny and proves what they do over whole runs and over
every interleaving of their steps.

Each concern has a file of its own.

- `Bus.dfy`, `BusProtocol.dfy`: the bus as classes, then as a state machine in which a publication is one
  locked step followed by one separate send per subscriber. `Writer.dfy` is the batch writer, and
  `Pipeline.dfy` runs bus and writer together for the conservation theorem.
- `RateLimiter.dfy`, `Engine.dfy`: two components that forget state to save memory. In both the forgetting
  is shown to be unobservable, against a version that never forgets.
- `Supervisor.dfy`, `Lifecycle.dfy`, `Notify.dfy`, `DispatchProtocol.dfy`, `Backoff.dfy`, `SdkHttp.dfy`:
  supervised connectors, alert delivery, and the three exponential-backoff loops.
- `Watermark.dfy`, `Connectors.dfy`, `Noaa.dfy`: polling with checkpoints across crashes, the three
  connectors that use a watermark, and the seen-map of the weather connector.
- `StreamCap.dfy`, `DeadLetter.dfy`, `Iceberg.dfy`, `Prometheus.dfy` with `Numbers.dfy`: the connection cap,
  the two dead-letter stores, the table-metadata commit chain, and the metrics printer with its inverse.
- `Common.dfy`, `StringOrder.dfy`: shared vocabulary and Go's order on strings.

Where the source updates fields, the model is a class whose methods are proved equal to a function of the
old state; the theorems are about that function. Concurrency is a state machine whose steps are the
source's lock acquisitions, channel operations and atomic updates. Clocks, network replies, store outcomes
and cancellations are parameters or step choices, so every theorem holds for all of them. Time is in whole
nanoseconds and tokens are exact reals. Log positions, counters and channel contents are unbounded except
where a width matters: durations are wrapping 64-bit values and the stream counter a wrapping 32-bit one.

## Where the code does not do what its comments promise

The code is modelled as it is; each of these is a lemma with the exact condition or a concrete run.

- The seen-map is capped at 5000 entries only while at most 5501 go into a save: the trim loop compares
  against a length that shrinks as it deletes (`Noaa.CapHoldsIff`), and a first poll of 5502 alerts leaves
  5001 (`Noaa.CapCanBeExceeded`). An alert with an empty `sent` is published again by every poll that brings
  it (`Noaa.EmptySentRepeats`).
- Waiting the advertised Retry-After is enough if and only if the true wait is at most a second or a whole
  number of seconds, because the seconds are truncated; one more second always suffices
  (`RateLimiter.RetryAfterSufficesIff`, `RateLimiter.QuietThenAdmitted`).
- The dedupe key joins three identifiers with `|` and identifies its parts exactly when none of them
  contains a bar (`Engine.KeyUnambiguousIffPlain`).
- The backoff loops meet the common schedule only up to a point. For all positive 64-bit durations: the
  dispatcher's loop does if and only if no doubling of the base, the base included, lands between 2^62 and the
  greater of base and cap (`Backoff.NotifyMeetsScheduleIff`); the running delay of the supervisor and of the
  HTTP client does if and only if the base is at most the cap and no doubling still below the cap reaches 2^62
  (`Backoff.RunningMeetsScheduleIff`); and the two agree with each other if and only if the base is at most the
  cap and, when the cap is 2^62 or more, no doubling hits it exactly (`Backoff.LoopsAgreeIff`).
- A dead-letter row always reports the configured maximum of attempts, and the `retried` counter also counts
  the last failed attempt of a delivery (`Notify.Dispatcher.DeliverWithRetry`,
  `DispatchProtocol.DispatchAccounting`).
- A torn write never harms earlier rows of the dead-letter file, but the next insertion shares its line and
  both are lost (`DeadLetter.NextInsertAfterTorn`, `DeadLetter.TornLosesTheNext`).
- A stream can be refused while a slot is free, when another refused handler has yet to undo its increment
  (`StreamCap.RefusedIff`, `StreamCap.SpuriousRefusal`).
- Overlapping Stops of one instance can leave two live supervisors (`Lifecycle.OverlappingStopsBreakIt`). A run
  is safe from a second supervisor, now and after one more Start, if and only if no Stop along it removes an
  instance that is still active (`Lifecycle.SafeIffNoStrayDelete`).
- A watermark connector never emits an entry that first appears at or below its watermark
  (`Watermark.LateEntriesAreLost`). A restart whose checkpoint load failed can lower the saved checkpoint: a
  poll can do so if and only if some key lies strictly between the watermark and the checkpoint
  (`Watermark.CheckpointSafeIff`), which for the two connectors with string keys is whenever anything
  but the empty string or a single NUL was saved (`Connectors.FailedLoadSafeIff`).
- `Commit` does not set a snapshot's parent; the lineage is the caller's duty (`Iceberg.LineageIff`).
- An error that wraps a deadline stops a connector for good, as cancellation does
  (`Supervisor.Instance.Supervise`). `WriterConfig.SubscribeQueue` is never read: the bus's own buffer size
  applies to the writer's subscription (`Bus.RecordBus.Subscribe`).

## Model

| member | source | states |
|---|---|---|
| Bus.RingIsNewest | apps/server/internal/bus/bus.go:48-53 | the ring always holds the newest ringSize records ever published, none when ringSize is 0 |
| Bus.OfferMeaning | apps/server/internal/bus/bus.go:61-70 | the same of the send as a function, which the interleaved model uses |
| Bus.Subscription.Deliver | apps/server/internal/bus/bus.go:61-70 | never blocks: a record the filter rejects changes nothing; any other is appended when fewer than cap records are queued, and only when the channel is full is it left out and counted as dropped |
| Bus.Subscription.Prefill | apps/server/internal/bus/bus.go:90-101 | a fresh channel gets the first ring matches, as many as fit |
| Bus.RecordBus.constructor | apps/server/internal/bus/bus.go:28-41 | an empty bus; a negative ring size becomes 0 and a non-positive buffer becomes 64 |
| Bus.RecordBus.Snapshot | apps/server/internal/bus/bus.go:54-57 | every current subscription exactly once, and no other |
| Bus.RecordBus.AppendAndSnapshot | apps/server/internal/bus/bus.go:47-58 | one locked step keeps the ring the newest ringSize records ever published and copies the subscriptions |
| Bus.RecordBus.SendAll | apps/server/internal/bus/bus.go:60-71 | each copied subscription is offered the record exactly once |
| Bus.RecordBus.Publish | apps/server/internal/bus/bus.go:46-72 | undisturbed, a publication extends the published log by one and offers the record exactly once to every subscription |
| Bus.RecordBus.Subscribe | apps/server/internal/bus/bus.go:78-104 | a fresh ID; replay leaves the first matches among the newest published records in the channel, as many as fit, before anything live |
| Bus.RecordBus.Recent | apps/server/internal/bus/bus.go:106-113 | the newest min(ringSize, published) of all records ever published, newest last |
| Bus.RecordBus.Close | apps/server/internal/bus/subscription.go:30-38 | removes and closes a registered subscription, and is harmless when repeated |
| Bus.SelectInOrder | apps/server/internal/bus/bus.go:90-100 | the replayed records are matches only, in ring order |
| Bus.SelectIsComplete | apps/server/internal/bus/bus.go:90-100 | a ring record is among the matches if and only if there is no filter or the filter accepts it |
| BusProtocol.StepKeepsInv | apps/server/internal/bus/bus.go:46-104 | every lock, send, subscribe, receive and close keeps: each owed record is attempted once or in flight, and the channel is what was sent less what was read |
| BusProtocol.RunKeepsInv | apps/server/internal/bus/bus.go:46-104 | the same over every interleaving |
| BusProtocol.HandoffIsExactlyOnce | apps/server/internal/bus/bus.go:46-104 | once in-flight sends finish, each record that passes the filter and was in the ring at subscribe time or published later has been sent, dropped or skipped by replay exactly once, and no other record has |
| BusProtocol.StepDrops | apps/server/internal/bus/bus.go:61-70 | in any interleaving a matching record is dropped only by a send that finds subBuffer records queued; otherwise it joins the channel |
| BusProtocol.DropsAreFullMeetings | apps/server/internal/bus/bus.go:61-70 | over any run the drop counter grows by exactly the matching sends that found the channel full |
| BusProtocol.ReplayComesFirst | apps/server/internal/bus/bus.go:76-104 | a subscriber reads the first min(subBuffer, matches) matching ring records, in order, before any live record |
| BusProtocol.PublishersKeepOrder | apps/server/internal/bus/bus.go:46-72 | whatever publications overlap, every subscriber is sent each publisher's records in that publisher's order, as long as each publisher waits for its own sends |
| Writer.Storage.Write | apps/server/internal/storage/storage.go:148-204 | all records of a batch are stored, or none |
| Writer.BatchWriter.constructor | apps/server/internal/storage/writer.go:51-66 | an idle writer; a non-positive batch size becomes 256 |
| Writer.BatchWriter.Flush | apps/server/internal/storage/writer.go:80-96 | an empty buffer does nothing; otherwise one batch is stored and counted, or refused and counted, and the buffer is emptied; the table holds exactly the stored batches in order |
| Writer.BatchWriter.Process | apps/server/internal/storage/writer.go:98-114 | one turn of the event loop: buffer, table, counters and end are those of the step function |
| Writer.BatchWriter.Run | apps/server/internal/storage/writer.go:72-116 | the event loop does what the step function says for any sequence of ticks, records, store outcomes, closings and shutdowns, and stops at the first closing or shutdown |
| Writer.HandleKeepsAccounts | apps/server/internal/storage/writer.go:98-114 | every event keeps written = records stored, flushes and failures = batches, flushes <= written <= flushes * BatchSize, the buffer below a batch, and loses or reorders nothing |
| Writer.HandleFlushes | apps/server/internal/storage/writer.go:80-114 | ticks, closing and shutdown empty the buffer; an event hands over at most one batch, marked with the outcome of its own write; only closing and shutdown end the writer |
| Writer.FullBatchOnly | apps/server/internal/storage/writer.go:110-113 | a record below the batch size only joins the buffer; the record that completes a batch causes exactly one write, of the whole buffer |
| Writer.ShortBatchesAreForced | apps/server/internal/storage/writer.go:98-114 | in any run a batch is of BatchSize records unless a tick, a closing or a shutdown caused it |
| Writer.OnlyFullBatches | apps/server/internal/storage/writer.go:110-113 | a run of records alone writes batches of exactly BatchSize, and leaves less than a batch buffered |
| Writer.RunKeepsAccounts | apps/server/internal/storage/writer.go:72-116 | over a whole run the records taken are those drained plus the buffer, in order, and the buffer is empty when the writer returns |
| Writer.DrainedSplits | apps/server/internal/storage/writer.go:88-95 | drained records are the stored and the refused ones, as multisets |
| Writer.StoredInOrder | apps/server/internal/storage/writer.go:88-95 | stored records are a subsequence of the drained ones |
| Pipeline.RunKeepsInv | apps/server/internal/storage/writer.go:31-116 | in any mix of publishers, other subscribers and writer steps, up to and after the writer's closing, the writer has consumed exactly what its subscription delivered |
| Pipeline.PositionsConserved | apps/server/internal/bus/bus.go:46-72 | every publication since the writer subscribed is queued or read, dropped, or in flight, each exactly once |
| Pipeline.Conservation | apps/server/internal/storage/writer.go:31-50 | published since subscribing = stored + refused + buffered + queued + dropped + in flight, as multisets, with the drop and write counters in agreement |
| Pipeline.NothingLeftOver | apps/server/internal/storage/writer.go:72-112 | once the writer has closed its subscription, what was published up to then is stored, refused, left in the channel or dropped |
| Pipeline.OrderlyStores | apps/server/internal/storage/writer.go:72-116 | when each publisher's sends were in order, the table holds its records in its order |
| Pipeline.PipelineTheorem | apps/server/internal/storage/writer.go:46-116 | from a writer joining any reachable bus through any run, up to the deferred closing of its subscription: conservation, and each publisher's order in the table when it publishes one record at a time |
| RateLimiter.TokenBuckets.constructor | apps/server/internal/httpapi/ratelimit.go:34-43 | an empty limiter collecting every 100 calls; a non-positive rate becomes 10 |
| RateLimiter.TokenBuckets.Allow | apps/server/internal/httpapi/ratelimit.go:47-80 | decision and new buckets are those of the specification step, whose meaning AdmittedCosts and CollectionPolicy give |
| RateLimiter.TokenBuckets.GcLocked | apps/server/internal/httpapi/ratelimit.go:83-90 | exactly the buckets last filled before the 5-minute cut are forgotten |
| RateLimiter.NextFacts | apps/server/internal/httpapi/ratelimit.go:47-80 | tokens stay in [0, rpm], and the decision depends only on the caller's own refilled level, collector or not |
| RateLimiter.AdmittedCosts | apps/server/internal/httpapi/ratelimit.go:56-79 | an admitted call takes exactly one token from its address, a refused one none |
| RateLimiter.CollectionPolicy | apps/server/internal/httpapi/ratelimit.go:51-54 | each call is counted; on every hundredth, and on no other, exactly the buckets idle for 5 minutes go, and no other address is touched |
| RateLimiter.RefillTwice | apps/server/internal/httpapi/ratelimit.go:62-68 | refilling in two steps equals refilling once |
| RateLimiter.IdleIsFull | apps/server/internal/httpapi/ratelimit.go:59-67 | a bucket idle for a minute or more is as good as a fresh one |
| RateLimiter.LevelsDecide | apps/server/internal/httpapi/ratelimit.go:47-90 | two limiters with equal refilled levels give equal decisions for ever |
| RateLimiter.GcUnobservable | apps/server/internal/httpapi/ratelimit.go:51-54 | over any calls from any addresses, collecting buckets never changes a decision |
| RateLimiter.OthersDoNotMatter | apps/server/internal/httpapi/ratelimit.go:47-80 | an address gets the decisions it would get alone on a limiter that never forgets |
| RateLimiter.RefusedCallsAreFree | apps/server/internal/httpapi/ratelimit.go:70-77 | striking a refused call from a run changes no later decision of anyone |
| RateLimiter.WindowBound | apps/server/internal/httpapi/ratelimit.go:12-20 | at most rpm + rpm*T/60 admissions per address in any window of T seconds of any run, across collections |
| RateLimiter.LevelIsLeastRoom | apps/server/internal/httpapi/ratelimit.go:56-79 | the level of an address that began without a bucket is the least room left in any window ending now: rpm + rpm*T/60 less the calls admitted in it |
| RateLimiter.AdmittedIffWithinEveryWindow | apps/server/internal/httpapi/ratelimit.go:47-80 | whatever other addresses and the collector do: a call is admitted if and only if, counting it, no window ending with it has more than rpm + rpm*T/60 admissions |
| RateLimiter.FirstCallsAdmitted | apps/server/internal/httpapi/ratelimit.go:56-58 | an address without a bucket has its first rpm calls admitted, at whatever times and whatever others do |
| RateLimiter.RetryAfterFacts | apps/server/internal/httpapi/ratelimit.go:71-76 | Retry-After is between 1 and 60, never longer than the true wait unless it is 1, and one second more than it restores a token |
| RateLimiter.OthersKeepLevel | apps/server/internal/httpapi/ratelimit.go:47-90 | whatever is served to other addresses meanwhile, collections included, an address keeps its level |
| RateLimiter.QuietThenAdmitted | apps/server/internal/httpapi/ratelimit.go:70-79 | a refused address that stays quiet while any others call is admitted exactly when its level is back to one token, always so after Retry-After + 1 seconds |
| RateLimiter.RetryAfterSufficesIff | apps/server/internal/httpapi/ratelimit.go:71-76 | waiting exactly Retry-After is enough if and only if the true wait is at most one second or a whole number of seconds |
| RateLimiter.RetryAfterAloneCanBeTooShort | apps/server/internal/httpapi/ratelimit.go:72-76 | a concrete run in which waiting exactly Retry-After is refused again |
| Engine.RuleEngine.constructor | apps/server/internal/alerts/engine.go:43-51 | no rules, nothing remembered, a window of 300 s |
| Engine.RuleEngine.ReloadRules | apps/server/internal/alerts/engine.go:122-131 | a failing store leaves the rules as they were and reports the failure |
| Engine.RuleEngine.PruneDedupe | apps/server/internal/alerts/engine.go:133-142 | exactly the stamps older than a window are forgotten |
| Engine.PrunePolicy | apps/server/internal/alerts/engine.go:133-142 | on the state: exactly the stamps older than a window go, and rules and alerts stay |
| Engine.RuleEngine.Evaluate | apps/server/internal/alerts/engine.go:144-186 | map and emitted alerts are those of the specification step, rule by rule in order |
| Engine.Matches | apps/server/internal/alerts/engine.go:188-211 | true exactly when the rule names this connector or none, its severity list is empty or holds the severity tag (absent reads as empty), and every required tag has its value; a record without tags matches no tag rule |
| Engine.EveryAlertIsCaused | apps/server/internal/alerts/engine.go:144-186 | in any run every alert comes from an evaluated record and an enabled rule then loaded: it carries their fields, and the rule accepts its connector, severity and tags |
| Engine.RuleFiresIff | apps/server/internal/alerts/engine.go:144-186 | after any run a rule fires on a record if and only if it is enabled, accepts the record, and no alert of the same rule, connector and source is younger than 300 s |
| Engine.EvaluationIsComplete | apps/server/internal/alerts/engine.go:144-186 | an evaluation asks every loaded rule in order and keeps every alert they fire |
| Engine.LookupMeansRecent | apps/server/internal/alerts/engine.go:158-161 | a matching record is suppressed if and only if an alert with its key was emitted less than a window ago |
| Engine.EngineMeetsReference | apps/server/internal/alerts/engine.go:122-186 | over records, reloads and prunes under a monotone clock the engine emits what a map-free engine that remembers every alert emits |
| Engine.PruningUnobservable | apps/server/internal/alerts/engine.go:133-142 | with and without pruning the emitted alerts are identical |
| Engine.RefRunSpaced | apps/server/internal/alerts/engine.go:156-163 | any two alerts of one key are at least a window apart |
| Engine.SpacedCount | apps/server/internal/alerts/engine.go:156-163 | spaced alerts fit at most one more than T/window times in an interval T |
| Engine.AlertRateBound | apps/server/internal/alerts/engine.go:144-163 | at most floor(T/window) + 1 alerts per key in any interval T of any run |
| Engine.KeyUnambiguousIffPlain | apps/server/internal/alerts/engine.go:156-156 | the dedupe key belongs to one (rule, connector, source) if and only if none of the three contains a bar |
| Backoff.NotifyBackoff | apps/server/internal/alerts/notify.go:180-192 | the loop on wrapping 64-bit durations computes the specified delay for every attempt number |
| Backoff.WrapIsTwosComplement | apps/server/internal/alerts/notify.go:180-192 | the modelled durations are 64-bit two's complement |
| Backoff.RunningIsSchedule | apps/server/internal/connectors/runtime.go:162-197 | below 2^62 the running delay before the k-th retry is min(max, base*2^(k-1)) and never overflows |
| Backoff.NotifyMeetsScheduleIff | apps/server/internal/alerts/notify.go:179-192 | for all positive durations: the dispatcher's loop meets the schedule on every attempt if and only if no doubling of the base, the base included, lands between 2^62 and the greater of base and cap |
| Backoff.RunningMeetsScheduleIff | apps/server/internal/connectors/runtime.go:166-196 | for all positive durations: the running delay meets the schedule on every retry if and only if the base is at most the cap and no doubling still below the cap reaches 2^62 |
| Backoff.OneSchedule | packages/sdk-go/sdkhttp/sdkhttp.go:61-76 | with 0 < base <= max < 2^62 the loops compute one schedule, and it never decreases |
| Backoff.LoopsAgreeIff | apps/server/internal/connectors/runtime.go:191-196 | for all positive durations: dispatcher and running delay agree on all retries if and only if the base is at most the cap and no doubling hits a cap of 2^62 or more exactly |
| Backoff.TotalWaitBound | apps/server/internal/alerts/notify.go:179-192 | after k retries the total wait is at most base*(2^k - 1) and at most k*max |
| SdkHttp.Client.Do | packages/sdk-go/sdkhttp/sdkhttp.go:60-117 | the first decisive reply or cancelled wait decides, everything before it was retryable, waits follow the running delay, at most MaxRetries of them |
| Supervisor.Instance.constructor | apps/server/internal/connectors/runtime.go:101-111 | a new instance is starting, with no restarts and no error |
| Supervisor.Instance.SetState | apps/server/internal/connectors/runtime.go:217-226 | the state changes as told, and the last error only with an error |
| Supervisor.Instance.BackOff | apps/server/internal/connectors/runtime.go:180-196 | a failed run is reported, then restarted once and counted, or stopped when cancelled in the wait |
| Supervisor.Instance.Supervise | apps/server/internal/connectors/runtime.go:157-215 | returns exactly when a run ends cleanly or by context, or the wait is cancelled; Restarts = moves from backoff to running; the last error is that of the last failed run or panic, if any; waits follow the schedule |
| Supervisor.SupervisorSchedule | apps/server/internal/connectors/runtime.go:162-196 | waits are 500 ms doubling up to 30 s |
| Supervisor.TraceShape | apps/server/internal/connectors/runtime.go:157-226 | states run starting, running, (backoff, running)*, optional backoff, stopped; failed is unreachable and stopped is final |
| Lifecycle.StepKeepsInv | apps/server/internal/connectors/runtime.go:86-135 | every Start, handler failure, launch, exit and Stop step keeps each active instance registered under its ID |
| Lifecycle.AtMostOneSupervisor | apps/server/internal/connectors/runtime.go:95-133 | at most one active instance per ID in every reachable state, given at most one Stop in flight per ID |
| Lifecycle.StopRemovesWhatItFound | apps/server/internal/connectors/runtime.go:229-246 | a Stop that succeeds removes the instance it found, whose supervisor has returned |
| Lifecycle.StopsCancel | apps/server/internal/connectors/runtime.go:229-246 | a Stop in flight has cancelled the instance it found, which bears the ID it was given |
| Lifecycle.UnregistersIff | apps/server/internal/connectors/runtime.go:229-246 | a step leaves an active instance unregistered if and only if it is a Stop removing, under its ID, an instance still active |
| Lifecycle.SafeIffNoStrayDelete | apps/server/internal/connectors/runtime.go:86-135 | for every run with any overlapping Stops: never two active instances of an ID, nor after one more Start, if and only if no Stop along it removes a still active instance |
| Lifecycle.OneStopMeansNoStray | apps/server/internal/connectors/runtime.go:229-246 | one Stop at a time per ID rules such removals out |
| Lifecycle.OverlappingStopsBreakIt | apps/server/internal/connectors/runtime.go:229-246 | a run of two overlapping Stops of one ID that ends in two live supervisors |
| Notify.Dispatcher.constructor | apps/server/internal/alerts/notify.go:101-115 | non-positive attempts, base and cap become 1, 1 s and 30 s |
| Notify.Dispatcher.DeliverWithRetry | apps/server/internal/alerts/notify.go:140-177 | 1 to MaxAttempts calls; the first success, permanent error, done context or cancelled wait decides, and only the last of MaxAttempts failures ends it otherwise; counters, waits and dead-letter row follow |
| Notify.PlaysOutOneWay | apps/server/internal/alerts/notify.go:140-177 | that description leaves one fate, one number of calls and one of retries for every script |
| DispatchProtocol.StepKeepsInv | apps/server/internal/alerts/notify.go:120-177 | every goroutine step keeps the shared counters equal to sums over notifiers |
| DispatchProtocol.DispatchAccounting | apps/server/internal/alerts/notify.go:120-177 | when all have finished: delivered + dead-lettered + abandoned = notifiers, calls = delivered + retried + early breaks (the last failure permanent or found the context done), and how far `retried` exceeds the real retries |
| DispatchProtocol.PermanentIsFinal | apps/server/internal/alerts/notify.go:149-151 | a permanent error is the last call of its notifier, which can only be dead-lettered |
| DispatchProtocol.CheckAfterCall | apps/server/internal/alerts/notify.go:145-162 | a failure found permanent, or found after cancellation, goes straight to the dead letters without counting a retry; any other failure is counted and slept on |
| DispatchProtocol.FailureForGoodIsFinal | apps/server/internal/alerts/notify.go:149-151 | from there on a notifier is never called again, never sleeps, and can only end dead-lettered |
| DispatchProtocol.WorkersPlayOut | apps/server/internal/alerts/notify.go:120-177 | in every interleaving each finished notifier went the way of a lone DeliverWithRetry on what it met: the same calls, fate and retries |
| Watermark.PollMeaning | connectors/usgsearthquakes/connector.go:162-250 | a poll emits exactly the accepted entries strictly above the watermark and moves it to the greatest of them |
| Watermark.PollKeepsInv | connectors/usgsearthquakes/connector.go:119-160 | a poll, whether or not its save succeeds, lowers neither watermark nor checkpoint |
| Watermark.RunInvariant | connectors/usgsearthquakes/connector.go:119-260 | across feeds, failed fetches and saves, crashes and restarts: the checkpoint never decreases, and only keys still unsaved at a crash are emitted by two polls |
| Watermark.NoRepeats | connectors/openaq/connector.go:158-173 | without a crash, or with crashes between polls and no failed save, no key is emitted by two polls |
| Watermark.LateEntriesAreLost | connectors/openaq/connector.go:194-196 | an entry at or below the watermark is not emitted by any later poll |
| Watermark.CheckpointSafeIff | connectors/usgsearthquakes/connector.go:119-160 | for any ordered keys: no poll can lower the saved checkpoint if and only if no key lies strictly between watermark and checkpoint |
| Connectors.Earthquakes.Poll | connectors/usgsearthquakes/connector.go:162-250 | the loop with its magnitude and coordinate filters is a poll of the integer watermark |
| Connectors.AirQuality.PollOnce | connectors/openaq/connector.go:175-241 | the loop with its fallback and unparsable datetimes is a poll of the string watermark |
| Connectors.Fires.PollOnce | connectors/nasafirms/connector.go:155-244 | the loop, which stops at the first row the reader rejects, is a poll of the composite-key watermark |
| Connectors.QuakeEmittedIff | connectors/usgsearthquakes/connector.go:162-250 | an event is published if and only if it is newer than the watermark, its magnitude is absent or at least the minimum, and it has two coordinates |
| Connectors.AirEmittedIff | connectors/openaq/connector.go:185-240 | a measurement is published if and only if its end time, or else its start time, parses and is above the watermark |
| Connectors.FireEmittedIff | connectors/nasafirms/connector.go:178-240 | a row is read if and only if no row up to it is bad, and published if and only if date, time, position and satellite joined by bars are above the watermark |
| Connectors.PolledSaves | connectors/openaq/connector.go:175-241 | a failed fetch changes nothing; a poll that published saves its watermark unless the save fails; one that published nothing leaves watermark and checkpoint |
| Connectors.StringsAreOrdered | connectors/nasafirms/connector.go:155-244 | Go's string order is a strict total order, so the watermark theorems apply to string keys |
| StringOrder.LessIff | connectors/openaq/connector.go:194-200 | one string is less than another if and only if it is a proper prefix or smaller at the first difference |
| Connectors.IntCheckpointSafeIff | connectors/usgsearthquakes/connector.go:252-260 | with integer keys that is when the watermark is at most one below the checkpoint |
| Connectors.FailedLoadSafeIff | connectors/openaq/connector.go:158-158 | a string connector whose load error was discarded keeps the checkpoint safe if and only if nothing was saved, or a single NUL |
| Connectors.ConnectorIsProtocol | connectors/openaq/connector.go:141-173 | a connector's whole run, crashes and restarts included, is a run of the watermark protocol with the same watermark, checkpoint and entries |
| Connectors.RestartResumes | connectors/openaq/connector.go:158-173 | after any run, a crash in a poll has published a first part of it and the next poll publishes what is above the stored checkpoint, or above nothing when that cannot be read |
| Connectors.ConnectorNeverRepeats | connectors/openaq/connector.go:158-173 | a connector whose entries keep their key publishes no ID in two polls, without crashes or with crashes between polls and every save |
| Connectors.FiresNeverRepeat | connectors/nasafirms/connector.go:114-148 | no detection is published by two polls, whatever the feeds and failed saves |
| Connectors.QuakesNeverRepeat | connectors/usgsearthquakes/connector.go:119-160 | no event is published by two polls as long as its time is not revised |
| Noaa.SeenAlerts.constructor | connectors/noaaweather/connector.go:231-241 | a checkpoint that cannot be loaded leaves an empty map and the stored one untouched |
| Noaa.SeenAlerts.PublishNew | connectors/noaaweather/connector.go:168-223 | the loop publishes, remembers and counts what the filter and the (ID, sent) test let through, alert by alert |
| Noaa.FilterTable | connectors/noaaweather/connector.go:168-178 | which severities each minimum lets through: those of the scale at or above it, and any outside the scale; a minimum outside the scale counts as Unknown; test alerts are skipped when so configured |
| Noaa.SeenAlerts.PollOnce | connectors/noaaweather/connector.go:156-229 | publishes what the filter and the (ID, sent) test let through; saves only if something was published; a failed save keeps the old checkpoint |
| Noaa.SeenAlerts.SaveSeen | connectors/noaaweather/connector.go:243-262 | more than 5000 entries become exactly floor((n + 4500) / 2) of them, unchanged; the loop terminates |
| Noaa.CapHoldsIff | connectors/noaaweather/connector.go:244-256 | the promised cap of 5000 holds after a save if and only if at most 5501 entries went in |
| Noaa.CapCanBeExceeded | connectors/noaaweather/connector.go:244-256 | for every configuration there is a feed whose first poll leaves 5001 entries in the checkpoint |
| Noaa.PollGrowth | connectors/noaaweather/connector.go:172-223 | before the trim a poll forgets no ID and adds at most one per published alert |
| Noaa.SeenMapBound | connectors/noaaweather/connector.go:225-262 | over any run of polls, failed saves and restarts with at most g new IDs per poll, neither map nor checkpoint exceeds max(5000, 4500 + g), whichever entries the trims delete |
| Noaa.RemembersLatest | connectors/noaaweather/connector.go:172-223 | during a poll the map remembers for each ID the latest `sent` that passed the filter, published or not |
| Noaa.KeptIsLatest | connectors/noaaweather/connector.go:153-229 | so it does over a run, for an ID that no trim deletes |
| Noaa.ReemitsIff | connectors/noaaweather/connector.go:153-223 | over a run, an alert whose ID was not trimmed is published if and only if it passes the filter and its `sent` is empty or not the latest one polled for that ID, earlier alerts of the same feed included |
| Noaa.QuietWhileUnchanged | connectors/noaaweather/connector.go:153-181 | a remembered alert that keeps its non-empty `sent` is published by no poll until it is trimmed or the connector restarts |
| Noaa.EmptySentRepeats | connectors/noaaweather/connector.go:179-181 | an alert with an empty `sent` that passes the filter is published by every poll that brings it |
| StreamCap.CapHolds | apps/server/internal/httpapi/connectors.go:68-78 | in every interleaving admitted sessions never exceed the cap, the counter is admitted plus rejecting handlers, and it is 0 when all have finished |
| StreamCap.RefusedIff | apps/server/internal/httpapi/connectors.go:70-77 | a handler is refused if and only if admitted and still-rejecting handlers together fill the cap |
| StreamCap.SpuriousRefusal | apps/server/internal/httpapi/connectors.go:71-73 | a run after which a handler is refused although no session is left |
| DeadLetter.MemoryStore.constructor | apps/server/internal/alerts/deadletter.go:31-36 | an empty store; a non-positive capacity becomes 1024 |
| DeadLetter.MemoryStore.Insert | apps/server/internal/alerts/deadletter.go:38-46 | the oldest entries beyond the capacity are evicted |
| DeadLetter.MemoryStore.List | apps/server/internal/alerts/deadletter.go:48-60 | the newest entries, newest first; a non-positive or large limit means all |
| DeadLetter.MemoryHoldsNewest | apps/server/internal/alerts/deadletter.go:38-46 | after any number of insertions the store holds the newest max of them |
| DeadLetter.MemoryListing | apps/server/internal/alerts/deadletter.go:38-60 | a listing is the newest min(limit, max, n) insertions, newest first |
| DeadLetter.SplitLines | apps/server/internal/alerts/deadletter.go:134-147 | every newline-terminated line, and the tail when it is not empty |
| DeadLetter.ScanLossless | apps/server/internal/alerts/deadletter.go:134-147 | lines, their newlines and the tail are the file, byte for byte |
| DeadLetter.LinesReadAlone | apps/server/internal/alerts/deadletter.go:112-122 | each line is read by itself: a line that is empty or does not decode gives nothing and disturbs no other |
| DeadLetter.ReverseInPlace | apps/server/internal/alerts/deadletter.go:127-130 | the swap loop reverses the array |
| DeadLetter.FileStore.Insert | apps/server/internal/alerts/deadletter.go:84-100 | one row and its newline are appended, or a prefix of them and an error |
| DeadLetter.FileStore.DecodeRows | apps/server/internal/alerts/deadletter.go:112-122 | exactly the rows that decode, in file order; empty and corrupt lines are skipped |
| DeadLetter.FileStore.CapAndReverse | apps/server/internal/alerts/deadletter.go:123-131 | the newest rows in newest-first order, all of them for a non-positive or large limit |
| DeadLetter.FileStore.List | apps/server/internal/alerts/deadletter.go:102-132 | the newest rows of the file, newest first, capped by the limit |
| DeadLetter.FileMeetsLog | apps/server/internal/alerts/deadletter.go:84-132 | a file of whole rows reads back as everything inserted |
| DeadLetter.StoresAgree | apps/server/internal/alerts/deadletter.go:38-132 | with at most max insertions both stores answer every query alike |
| DeadLetter.TornWriteKeepsRows | apps/server/internal/alerts/deadletter.go:62-64 | a torn final write loses and changes no earlier row |
| DeadLetter.NextInsertAfterTorn | apps/server/internal/alerts/deadletter.go:96-98 | the next insertion is readable if and only if the torn bytes and the new row together decode to it |
| DeadLetter.TornLosesTheNext | apps/server/internal/alerts/deadletter.go:96-121 | with rows that delimit themselves, as JSON objects do, a write torn past its first byte loses the next insertion, and its own row too |
| Iceberg.CommitDocument | apps/server/internal/storage/iceberg/snapshot.go:117-139 | the result has lists of its own, so no later change to it reaches the input, and the input is unaltered |
| Iceberg.CommitKeepsWellFormed | apps/server/internal/storage/iceberg/snapshot.go:117-139 | the new snapshot has the next sequence number, matches its log entry, becomes current, and gets the time of the commit if it had none; earlier entries are a prefix |
| Iceberg.StepKeepsInv | apps/server/internal/storage/iceberg/snapshot.go:112-139 | every read or swap keeps the table well-formed, alters no published version, and commits exactly when the swapping writer holds the current version |
| Iceberg.CommitChain | apps/server/internal/storage/iceberg/snapshot.go:117-139 | for any number of writers retrying behind a compare-and-swap, published versions are never altered and form a prefix chain of well-formed tables |
| Iceberg.NoCommitLost | apps/server/internal/storage/iceberg/snapshot.go:117-139 | every successful commit is in every later version at its own place, with sequence number = place + 1, and the newest is current |
| Iceberg.LineageIff | apps/server/internal/storage/iceberg/snapshot.go:121-139 | the parent lineage continues if and only if the caller set the parent to the current snapshot |
| Numbers.FormatIsShortest | apps/server/internal/httpapi/prometheus.go:228-232 | the two trims leave the integer part whole and remove only trailing zeros of the fraction, and a bare point |
| Numbers.WholeNumbersAreClean | apps/server/internal/httpapi/prometheus.go:228-232 | a whole number prints as its decimal digits alone, with a sign when negative |
| Numbers.DecimalDigits | apps/server/internal/httpapi/prometheus.go:228-232 | those are the ASCII digits of its decimal expansion |
| Numbers.PaddedDigits | apps/server/internal/httpapi/prometheus.go:228-232 | the six decimals are the digits of the remainder, leading zeros kept |
| Numbers.FloatRoundTrip | apps/server/internal/httpapi/prometheus.go:228-232 | every six-decimal value reads back exactly |
| Prometheus.EscapeLabel | apps/server/internal/httpapi/prometheus.go:206-226 | the fast path and the rune loop give the same escaped text |
| Prometheus.EscapeTable | apps/server/internal/httpapi/prometheus.go:206-226 | backslash, double quote and newline are escaped by a backslash each, and every other character stands for itself, wherever it is |
| Prometheus.QuotedRoundTrip | apps/server/internal/httpapi/prometheus.go:206-226 | reading up to the closing quote recovers the exact label value, whatever follows |
| Prometheus.EscapeIsInjective | apps/server/internal/httpapi/prometheus.go:206-226 | different label values never print alike |
| Prometheus.EscapeHasNoNewline | apps/server/internal/httpapi/prometheus.go:207-219 | an escaped value holds no raw newline |
| Prometheus.OrderIsUnique | apps/server/internal/httpapi/prometheus.go:184-188 | sorted distinct keys have one order, so map iteration order never shows |
| Prometheus.SortOrders | apps/server/internal/httpapi/prometheus.go:188-188 | what the printer relies on from sorting: ascending, the same keys |
| Prometheus.MetricWriter.WriteHelp | apps/server/internal/httpapi/prometheus.go:157-166 | a "# HELP" line with name and text is written if and only if the name had none |
| Prometheus.MetricWriter.WriteType | apps/server/internal/httpapi/prometheus.go:168-177 | a "# TYPE" line with name and kind is written if and only if the name had none |
| Prometheus.MetricWriter.WriteLine | apps/server/internal/httpapi/prometheus.go:179-204 | one sample line with its labels in key order is appended, headers untouched |
| Prometheus.RenderLine | apps/server/internal/httpapi/prometheus.go:180-203 | collecting, sorting and building gives the line text for the sorted keys, braces only with labels |
| Prometheus.LineShape | apps/server/internal/httpapi/prometheus.go:179-204 | the name, then in braces key="escaped value" pairs separated by commas when there are labels, a space and the value |
| Prometheus.HeadersOnce | apps/server/internal/httpapi/prometheus.go:148-155 | over any call sequence HELP and TYPE appear at most once per name |
| Prometheus.LineRoundTrip | apps/server/internal/httpapi/prometheus.go:179-204 | for plain names, parsing a printed line recovers the exact name, labels and six-decimal value |
| Prometheus.ScrapeRoundTrip | apps/server/internal/httpapi/prometheus.go:148-204 | scraping everything a writer printed gives every HELP, TYPE and sample line once, in order, unchanged |

## Left out

- DuckDB SQL, time series, export, query and migration: their meaning lives in the SQL engine; only the all-or-nothing batch write is kept.
- Subscription.Close overlapping a Publish that already snapshotted the subscription: the code sends outside the lock on a channel that Close may close, so non-overlap is the `Enabled` condition of a Close step.
- Runtime.Start and Runtime.Stop as methods of a class: they are modelled as atomic steps, because what matters is how they interleave; the `pushHandlers` map, `StopAll` and the error texts are not modelled.
- Concurrent calls of one DeliverWithRetry and of Dispatch over several alerts: DispatchProtocol runs the notifiers of one alert; the shared counters of several alerts add up in the same way.
- Failing inserts into the dead-letter store: the code ignores their result.
- IDs, headlines, `Triggered` and `LastTried` times, log texts and Slack formatting.
- Publish errors inside pollers: the runtime's Publish never fails (apps/server/internal/connectors/context.go:64-70).
- Crashes inside a poll of the seen-map connector: in memory they are a restart; what such a poll had already published may be published again.
- Checkpoint text formats, CSV column lookup, timestamps and coordinates of polled records, and feed URLs; a poll sees the parsed entries.
- usgs-water polling: one scalar watermark over composite keys, covered by the same theorem.
- Floating-point rounding: limiter tokens are exact reals, and metric values are whole millionths after rounding; negative zero, NaN and infinities are not modelled.
- 64-bit wrap-around of event counters and IDs, and saturation of `time.Duration` differences.
- Invalid UTF-8 in label values; strings are sequences of characters.
- JSON as bytes: a row codec is any pair of functions in which encoding yields one non-empty line that decodes to the row.
- NewFileDeadLetterStore's errors for an empty path or an unopenable file, and a file that cannot be read.
- Schemas, partition specs and properties of a table, which Commit copies unchanged, and `MetadataLog`, which it never extends.
- Manifests, Parquet and object storage, authentication, routing, WebSocket and MQTT clients, configuration, CLI and the web application.
