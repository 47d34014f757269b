# Verified model of the photo-delivery backend

This project models the state machines of the Go backend and proves what each of them guarantees over whole
runs. Each group is modelled on its own; one SQL statement or transaction is one atomic step. Whole service calls are
steps only for the event lifecycle, in `RefreshFamilies` and `Lockout`, and where a lemma says that calls follow one another.

* **Photo and storage accounting** (`PhotoRows`, `PhotoAccounting`, `UploadService`): photos move through
  UPLOADING, PROCESSING, READY and FAILED while `photo_count` and `storage_bytes` follow; `PhotoSteps` says what each step
  does to the rows.
* **Job queue** (`JobQueue`, `QueueProtocol`, `QueueSteps`): claims, failures with backoff, releases, lost holders; and two
  schedulers that enqueue one kind of job at once (`ScheduleRaces`).
* **Rate limiter** (`TokenBucket`, `RateLimiter`, `RateLimitRuns`): a token bucket per key, idle keys dropped; `Allowances`
  has what a limiter lets through in terms of its arguments.
* **Billing webhooks**: deduplicated, retryable, in any order. `BillingWebhooks`, `WebhookEffects` and `WebhookRuns` have
  deliveries that follow one another, `NamelessPayments` those of them that name no invoice; `WebhookCalls`,
  `WebhookOverlaps` and `WebhookOutcomes` have deliveries that overlap, statement by statement.
* **Event lifecycle** (`EventRules`, `EventService`, `EventCalls`, `EventLifecycle`), the **expiry job** (`ExpiryJob`), the
  **purge job** (`ObjectKeys`, `KeyParts`, `PurgeJob`), what may happen between a job's listing of an event and its acting
  on it (`ListedEvents`), and the purge beside uploads, workers and exports that put objects meanwhile (`PurgeRaces`,
  `UrlLifetimes`).
* **Keyset pages and exports** (`KeysetPages`, `EntryNames`, `ExportArchive`), and what is kept of a client's file name
  (`ClientNames`).
* **Timeout writer** (`TimeoutWriter`), **slugs** (`Slugs`, `SlugText`, `Decimals`), **QR pictures** (`QrSvg`), **signed
  URLs** (`Gallery`, `GalleryAccess`), **sessions and lockout** (`AuthService`, `SessionCalls`; calls one after another in
  `RefreshFamilies` and `Lockout`, their statements interleaved in `RefreshCalls` and `LoginCalls`).
* `Wrappers`, `Totals`, `Orders` and `Induction` hold what several of these share.

Code that changes things in place is a class whose methods perform the source's steps and are proved equal to a
function of the old state; the laws about runs are lemmas on those functions. What a single call or step does
is also stated without those functions, in statuses, times and amounts. Times are integers (seconds), except
that the rate limiter uses reals, as its bucket does. Identifiers are opaque.

Trusted, and stated in the model: the token bucket of `golang.org/x/time/rate` starts full, refills at its rate, is
capped at its burst, and a reservation cancelled at once gives its tokens back; photo and export rows go with their
event (`migrations/0004_photos.sql:4`, `migrations/0011_exports.sql:4`); a job may be attempted five times
(`migrations/0005_jobs.sql:2`); provider references are unique (`migrations/0009_billing.sql:44-62`).

Where the code and its comments disagree, the model follows the code:

* `internal/jobs/worker.go:61-63` says a graceful shutdown leaves no job running. Complete runs under the cancelled
  context, so it can; `QueueProtocol.LostJobsStayRunning` says such a job stays running, and
  `QueueProtocol.LostJobStopsSchedule` that a scheduled job of its kind is then never enqueued again.
* `pkg/httpx/security.go:43-45` says a client that got nothing by the deadline gets a 504. When the handler returns after
  its late writes were dropped it gets the server's implicit empty 200; `TimeoutWriter.AnsweredIff` says exactly when.
* `pkg/httpx/security.go:80-82` says the 504 is written without the lock; the code holds it.
* `internal/photos/repository.go:344-345` says only counted photos are taken from the counters; a photo that failed while
  UPLOADING was never counted and is taken from them all the same (`PhotoAccounting.DriftHappens`).

Some laws one might expect do not hold as they stand. Each has a concrete case and an exact condition:

* counters equal what was counted: `DriftHappens`, `ExactThroughout`;
* a cancelled subscription stays cancelled, and statuses do not depend on the order of overlapping deliveries:
  `LateHappens`, `StatusesThroughoutIff`, `RevivedIff`;
* payments that name no invoice commute with those that do: `NamelessOrderIff`, `NamelessRunIff`;
* an event expires only when it is due, and is purged only when it is to be: `ExpiredEarlyHappens`, `ExpiredEarlyIff`,
  `PurgedWronglyIff`;
* no object of a purged event is ever in the store again: `AskedReturns`, `OutlivesIff`, `PurgedReturnsIff`;
* a scheduled job has one instance at a time: `TwoHappen`, `OneAtATimeIff`;
* an ended session stays ended, and a refresh token is exchanged once: `LateGrantHappens`, `StaysDeadIff`, `ExchangedAgainIff`;
* one password check per lockout: `LockCutShort`, `ChecksAreBounded`;
* archive names are distinct: `CollisionHappens`, `EntriesDistinctIff`;
* a request that times out is answered 504 or with the handler's own output: `EmptyOkHappens`, `AnsweredIff`.

## Model

| member | source | states |
|---|---|---|
| PhotoRows.PostgresRepository.MarkProcessing | internal/photos/repository.go:125-180 | One transaction: only an UPLOADING row moves, and only then do the event's and the owner's counters grow |
| PhotoSteps.CompletionCounts | internal/photos/repository.go:125-180 | In every reachable world a completion whose stored size is the recorded one moves an UPLOADING photo to PROCESSING and counts it and its bytes; otherwise no row changes |
| PhotoRows.PostgresRepository.MarkReady | internal/photos/repository.go:187-201 | READY is set by id, whatever the status was |
| PhotoSteps.WorkerMakesReady | internal/photos/repository.go:187-201 | A worker that finishes leaves its photo, if the row is still there, READY with the event and size it had, and changes no other row and no counter |
| PhotoSteps.ReadyHappens | internal/uploads/service.go:406-458 | A run from nothing uploads, completes and processes a photo, which ends READY and counted |
| PhotoRows.PostgresRepository.MarkFailed | internal/photos/repository.go:203-214 | FAILED is set unless the photo is READY |
| PhotoSteps.AbortFails | internal/photos/repository.go:203-214 | An aborted photo that is UPLOADING, PROCESSING or FAILED becomes FAILED, a READY one stays, and no other row changes |
| PhotoRows.PostgresRepository.FailStaleUploads | internal/photos/repository.go:219-228 | Exactly the UPLOADING rows last touched before the cutoff fail, and their number is returned |
| PhotoSteps.SweepFails | internal/photos/repository.go:219-228 | A photo that is UPLOADING and was touched strictly before the cutoff becomes FAILED; every other one stays |
| PhotoRows.PostgresRepository.DeleteOwned | internal/photos/repository.go:303-367 | Only the owner of a live event deletes; everything but an UPLOADING photo is taken from the counters, never below zero |
| PhotoSteps.DeletionTakes | internal/photos/repository.go:303-367 | In every reachable world a deletion takes exactly the owner's photo of a live event and, unless it was UPLOADING, one photo and its bytes from the counters, never below zero |
| PhotoRows.PostgresRepository.PurgeEvent | internal/events/repository.go:495-523 | The event, its photo rows and its bytes at the owner go together |
| PhotoSteps.PurgeTakes | internal/events/repository.go:495-523 | In every reachable world a purge takes the event, exactly its photos, and its bytes at its owner |
| PhotoAccounting.StatusMoves | internal/photos/repository.go:125-228 | The only status changes any step can make, and a photo's event and size never change |
| PhotoAccounting.HistoryIsHonest | internal/photos/repository.go:131-146 | The recorded number of entries into PROCESSING grows exactly when the row makes that move |
| PhotoAccounting.CountedAtMostOnce | internal/uploads/service.go:406-458 | Under every interleaving a photo enters PROCESSING at most once, adds its own size at most once, gets at most one process job, and is PROCESSING or READY only if counted |
| PhotoAccounting.ReachableWorlds | internal/photos/repository.go:125-367 | On every run no event counter exceeds its counted photos and no user counter the sum over the user's events |
| PhotoAccounting.BoundedStep | internal/photos/repository.go:125-367 | Each single step keeps those bounds |
| PhotoAccounting.ExactStep | internal/photos/repository.go:303-367 | From exact counters a step leads to exact counters if and only if it is not the deletion of a never-counted FAILED photo of an owner with recorded bytes |
| PhotoAccounting.ExactThroughout | internal/photos/repository.go:203-228 | The counters are exact after every step of a run if and only if no step is such a deletion |
| PhotoAccounting.ClampsNeverFire | internal/photos/repository.go:344-360 | While the counters are exact no deletion of a counted photo and no purge needs GREATEST(…, 0) |
| PhotoAccounting.DropUncountedExact | internal/photos/repository.go:344-360 | When the drifting deletion is harmless: exactly if the owner has no bytes recorded |
| PhotoAccounting.DriftHappens | internal/photos/repository.go:203-228 | A concrete run in which the deletion of a never-counted photo makes the counters too small |
| UploadService.Service.Complete | internal/uploads/service.go:406-458 | Run alone it leaves the rows of its steps, queues a job exactly when it moved the photo, and changes nothing on NotFound, UploadNotFound or SizeMismatch |
| UploadService.RunAlone | internal/uploads/service.go:406-458 | The steps of one call amount to one MarkProcessing, made only if the stored size is the recorded one |
| JobQueue.BackoffIsCappedDoubling | internal/jobs/queue.go:16-28 | Backoff(k) is min(2^(k-1), 300) seconds and never shrinks, for every k |
| QueueSteps.WaitsAre | internal/jobs/queue.go:16-28 | The waits after the first nine failures are 1, 2, 4, … 256 seconds, and five minutes after every later one |
| JobQueue.PostgresQueue.Enqueue | internal/jobs/queue.go:54-63 | A new pending job, ready at once |
| JobQueue.PostgresQueue.EnqueueUnique | internal/jobs/queue.go:68-88 | A job is added exactly when none of its kind is pending or running |
| QueueSteps.UniqueEnqueuesIff | internal/jobs/queue.go:68-88 | The new job is pending with five attempts and may run at once, and is added unless a pending or running one of its kind exists |
| JobQueue.PostgresQueue.Claim | internal/jobs/queue.go:90-120 | A ready job with the earliest run time becomes running; None exactly when no job is ready |
| QueueSteps.ClaimsIff | internal/jobs/queue.go:90-120 | In every reachable world a free goroutine can claim a job exactly when it is pending and its time has come; it is then running, locked by its claimer, and nothing else changes |
| JobQueue.PostgresQueue.Complete | internal/jobs/queue.go:122-127 | The job is done |
| JobQueue.PostgresQueue.Fail | internal/jobs/queue.go:129-171 | One attempt more: pending after the backoff, or failed at the last attempt |
| QueueSteps.FailureRetriesIff | internal/jobs/queue.go:129-171 | A failed job is pending again, due after its wait, exactly when an attempt is left after this one, and failed otherwise |
| JobQueue.PostgresQueue.Release | internal/jobs/queue.go:173-178 | Back to pending without using up an attempt |
| JobQueue.Poller.Handle | internal/jobs/worker.go:115-158 | Which of the three calls one dispatch leads to and what is reported; a reported done, retry or failure is the job's new state, while a release is reported even if it failed and the job is still running |
| QueueProtocol.ReachableWorlds | internal/jobs/queue.go:90-178 | The invariant of every interleaving of claims, results, releases, crashes and time |
| QueueProtocol.HeldByAtMostOne | internal/jobs/queue.go:90-120 | No job is ever held by two goroutines |
| QueueProtocol.FinalStatesStay | internal/jobs/queue.go:122-178 | Done and failed jobs are never changed again |
| QueueProtocol.DispatchesAreBounded | internal/jobs/queue.go:129-178 | Unfinished implies attempts left, failed means none left, and dispatches never exceed max_attempts plus releases |
| QueueSteps.FiveAttempts | internal/jobs/queue.go:54-178 | In every run each job has five attempts and is dispatched at most five times, releases apart |
| QueueProtocol.RetriesWait | internal/jobs/queue.go:129-171 | The k-th retry is not claimed before Backoff(k) after the failure, nor before all k backoffs since enqueueing have passed |
| QueueProtocol.LostJobsStayRunning | internal/jobs/worker.go:115-158 | A running job without a holder stays running for ever |
| QueueProtocol.ScheduledOneAtATime | internal/jobs/queue.go:65-88 | While EnqueueUnique statements do not overlap, a kind of job that only they enqueue has at most one instance in flight on every run, through failures, retries and releases |
| ScheduleRaces.OneAtATimeIff | internal/jobs/queue.go:65-88 | However they overlap, it has at most one at all times if and only if no statement inserts one after another, which had not inserted yet when it looked, has inserted one that is still unfinished |
| ScheduleRaces.TwoHappen | internal/jobs/queue.go:65-67 | Two schedulers that start together enqueue the job twice |
| QueueProtocol.LostJobStopsSchedule | internal/jobs/queue.go:68-88 | Once a scheduled job's holder is lost no job of its kind is ever enqueued again |
| TokenBucket.Limiter.ReserveN | pkg/httpx/ratelimit.go:91-94 | The trusted bucket: what a reservation takes and how long its debt lasts |
| TokenBucket.Limiter.CancelAt | pkg/httpx/ratelimit.go:95-98 | The trusted bucket: an immediate cancel gives the tokens back, up to the burst |
| RateLimiter.RateLimiter.ChargeN | pkg/httpx/ratelimit.go:72-100 | One charge with its visit, clean-up, reservation and cancel, as one change to the map of buckets |
| Allowances.WindowIsBounded | pkg/httpx/ratelimit.go:26-37 | From the limiter's own arguments: in any window of T seconds of any run a key is admitted at most burst + perMinute × T / 60 units |
| Allowances.EmptyBucketRefills | pkg/httpx/ratelimit.go:26-37 | After any run, a key whose bucket is empty is next granted one unit exactly 60 / perMinute seconds later, and told the rest of the wait before |
| Allowances.BurstAtOnce | pkg/httpx/ratelimit.go:26-37 | A fresh key is granted the whole burst at once, which empties its bucket |
| Allowances.NextUnit | pkg/httpx/ratelimit.go:26-37 | After that it gets its next unit 60 / perMinute seconds later and not before |
| Allowances.CostsCharged | pkg/httpx/ratelimit.go:69-100 | A cost below one counts as one; one above the burst is refused whatever the bucket holds |
| RateLimiter.RateLimiter.Charge | pkg/httpx/ratelimit.go:55-67 | The answer and the Retry-After seconds |
| RateLimiter.RateLimiter.Cleanup | pkg/httpx/ratelimit.go:102-108 | Exactly the keys idle for longer than the ttl are dropped |
| RateLimitRuns.DeniedCostsNothing | pkg/httpx/ratelimit.go:91-98 | After a denied charge the bucket is at every later time as full as if it had not been made |
| RateLimitRuns.DeniedLeavesNoTrace | pkg/httpx/ratelimit.go:69-98 | Leaving a denied call out of any ordered run changes no other answer, delay included |
| RateLimitRuns.RetryAfterIsExact | pkg/httpx/ratelimit.go:55-67 | A key left alone is refused the same cost until the delay has passed and granted it from then on; Retry-After (section 10.2.3 of RFC 9110) is that delay rounded up |
| RateLimitRuns.EvictionUnnoticed | pkg/httpx/ratelimit.go:72-108 | With ttl × rate ≥ burst every charge of every run is answered as by a limiter that never evicts |
| RateLimitRuns.UnnoticedIff | pkg/httpx/ratelimit.go:102-108 | Eviction goes unnoticed in all runs if and only if that condition holds (or the burst or ttl makes it moot) |
| RateLimitRuns.AdmittedIsBounded | pkg/httpx/ratelimit.go:72-100 | The cost admitted for a key in any window of calls is at most burst + rate × window, with eviction too if it goes unnoticed |
| RateLimitRuns.WiredLimiters | cmd/api/main.go:133-138 | Any limiter whose burst is at most ten minutes' allowance meets the condition with a ten-minute ttl |
| RateLimitRuns.SixWiredLimiters | cmd/api/main.go:133-138 | The six limiters of the API, each with its own allowance and burst, evict unnoticed |
| Allowances.WiredWindows | cmd/api/main.go:133-138 | The bound on any window for each of the six wired limiters |
| Allowances.WiredNextUnits | cmd/api/main.go:133-138 | The wait for the next unit for each of them |
| BillingWebhooks.Service.HandleWebhook | internal/billing/service.go:314-331 | Record, apply, and undo the record if applying failed |
| WebhookEffects.FaultlessAnswer | internal/billing/service.go:314-331 | Without faults the answer depends only on the id, the kind and whether the id has been recorded |
| WebhookEffects.FailureIsRetried | internal/billing/service.go:322-329 | A delivery fails only when a database call does, and leaves no record unless undoing it failed too |
| WebhookEffects.FailedLeaves | internal/billing/service.go:333-378 | A failed delivery has paid nothing; at most it has made usable the subscription whose invoice it then could not pay |
| BillingWebhooks.Service.ApplyWebhook | internal/billing/service.go:333-397 | Every branch of an event's effect, with a fault possible at each statement |
| WebhookEffects.PaymentActivates | internal/billing/service.go:335-350 | An applied payment makes the subscription it names active if it was trialing, active or past due; a canceled or expired one, and every other one, stays as it was |
| WebhookEffects.PaymentPays | internal/billing/service.go:351-365 | An applied payment that names an invoice marks that one paid, at the time the event tells, unless it was paid; and no other |
| WebhookEffects.PaymentPaysLatest | internal/billing/service.go:366-378 | One that names none pays the open invoice of its subscription that was issued last, and no other |
| WebhookEffects.CancellationCancels | internal/billing/service.go:379-393 | An applied cancellation cancels the subscription it names, whatever its status, and touches nothing else |
| BillingWebhooks.Service.GetLatestOpenInvoice | internal/billing/repository.go:252-258 | The open invoice issued last |
| BillingWebhooks.Service.GetSubscriptionByProviderRef | internal/billing/repository.go:172-176 | The one subscription with that reference |
| WebhookRuns.FinalState | internal/billing/service.go:314-397 | For deliveries that follow one another: if every delivered event names its invoice (or cancels) and is in the end applied, statuses and paid invoices are those of carrying out each distinct event once |
| WebhookRuns.OrderDoesNotMatter | internal/billing/service.go:314-397 | Two such runs with the same set of events end with the same statuses and the same paid invoices, whatever the order, the duplicates and the failed deliveries |
| WebhookRuns.FailedCanBeRetried | internal/billing/service.go:314-331 | A failed delivery whose record was undone is applied when delivered again |
| WebhookRuns.AppliedOnce | internal/billing/repository.go:299-314 | No event id is applied twice in such a run |
| WebhookRuns.DeliveryRevivesNothing | internal/billing/service.go:333-397 | No undisturbed delivery gives a user a second usable subscription or brings a finished one back |
| WebhookRuns.NamelessOrderIff | internal/billing/service.go:360-397 | A payment without and one with an invoice reference commute if and only if the named invoice is not the latest open one of several |
| NamelessPayments.NamelessRunIff | internal/billing/service.go:345-373 | New payments of one subscription, n of them naming no invoice, pay the same invoices in every order if and only if no named invoice is among the n latest open ones, or these and the named ones are all the open ones |
| NamelessPayments.RunPays | internal/billing/repository.go:252-270 | In any order such payments pay the named invoices and, for each that names none, one open invoice later than all that are left |
| WebhookCalls.RecordsAlways | internal/billing/service.go:314-331 | However the statements of deliveries interleave, each event is applied at most once, by at most one delivery at a time, and every record is of an event applied, in progress, or whose delivery stopped |
| WebhookCalls.StatusIff | internal/billing/service.go:333-389 | However they interleave, a subscription has the status undisturbed deliveries would leave if and only if no late write revived it |
| WebhookOverlaps.StatusesThroughoutIff | internal/billing/service.go:338-389 | For every interleaving the statuses are at all times those of undisturbed deliveries if and only if no payment's status write lands after a cancellation of the same subscription that came after its read |
| WebhookOverlaps.RevivedIff | internal/billing/service.go:338-389 | A finished subscription becomes usable again exactly by a payment's status write that a cancellation has overtaken |
| WebhookOverlaps.OneUsableAlways | internal/billing/repository.go:214-220 | With the unique index no interleaving gives a user a second usable subscription |
| WebhookOutcomes.OverlappedStatuses | internal/billing/service.go:314-397 | Once every event has been applied, however deliveries overlapped, each status is the one the set of events calls for if and only if the subscription was not left revived |
| WebhookOutcomes.OverlappedPayments | internal/billing/service.go:345-373 | And, if every payment names its invoice, the paid invoices are those the set of events calls for, in every interleaving |
| WebhookOutcomes.OverlapOrderDoesNotMatter | internal/billing/service.go:314-397 | Two interleavings of the same events pay the same invoices, and leave the same status wherever neither revived the subscription |
| WebhookOutcomes.LateHappens | internal/billing/service.go:338-389 | A payment reads, a cancellation is applied, the payment writes: both events are applied and the subscription ends active |
| WebhookOutcomes.UndisturbedIsDeliver | internal/billing/service.go:314-397 | The statements of one delivery, undisturbed, do what HandleWebhook does |
| WebhookOutcomes.DuplicateMeans | internal/billing/service.go:318-324 | A duplicate is answered when the event was recorded before, has been applied, is being carried out by one other delivery, or is stuck; of the last three exactly one |
| WebhookOutcomes.DuplicateOfAFailure | internal/billing/service.go:318-329 | A duplicate can be answered while the first delivery still goes on to fail, after which the event is neither applied nor recorded |
| WebhookOutcomes.OneInvoiceForTwo | internal/billing/service.go:362-373 | Two overlapping payments that name no invoice can both be applied and pay one invoice between them |
| EventService.Service.Create | internal/events/service.go:94-152 | Creation with its plan limit, status and expiry rules, errors included |
| EventCalls.CreationSucceedsIff | internal/events/service.go:94-152 | Exactly when the text is in order, the plan has room and the date asked for is in the retention window; which error otherwise |
| EventCalls.CreationMakes | internal/events/service.go:94-152 | The new event is the user's, upcoming unless another status is asked for, and ends when asked or else with the window |
| EventService.Service.Update | internal/events/service.go:223-287 | Which expiry an update leaves, and when it is refused |
| EventCalls.UpdateSucceedsIff | internal/events/service.go:223-287 | Exactly when the event is the owner's and, if the expiry is to change, neither archived nor expired and the date is in the window |
| EventCalls.UpdateSetsExpiry | internal/events/service.go:223-287 | The date asked for; clearing it leaves none or the window's end |
| EventService.Service.Extend | internal/events/service.go:293-335 | Extension within the retention window; reactivation of an expired event |
| EventCalls.ExtensionSucceedsIff | internal/events/service.go:293-335 | An extension by 1 to 3650 days succeeds exactly for the owner's own event that is not archived, with room if it had expired, and a new date inside the window; which error otherwise |
| EventCalls.ExtensionMovesExpiry | internal/events/service.go:313-328 | The new expiry is exactly that many days after now or after the old expiry, whichever is later, so never earlier than the old one; an expired event is active again |
| EventService.Service.Transition | internal/events/service.go:341-392 | A status change along the allowed transitions, with the limit and expiry rules of reactivation |
| EventCalls.TransitionSucceedsIff | internal/events/model.go:72-87 | A status change succeeds exactly along the listed moves, with room for a reactivation |
| EventCalls.TransitionSetsStatus | internal/events/service.go:341-392 | It sets the status and keeps the expiry; a reactivation gives a fresh window |
| EventService.Service.Delete | internal/events/service.go:394-403 | Soft deletion of the owner's own event |
| EventCalls.DeletionMarks | internal/events/service.go:394-403 | A deletion succeeds exactly for an event of the owner's own, and notes when |
| EventService.Service.EnforceEventLimit | internal/events/service.go:526-542 | The plan limit on live events |
| EventLifecycle.ExpiryStaysInWindow | internal/events/service.go:154-182 | With retention R > 0 no run leaves an event without expires_at or with one later than now + R days |
| EventLifecycle.LiveCountBounded | internal/events/service.go:526-542 | With a limit M > 0 no run lifts a user's live events above max(M, what they were) |
| EventLifecycle.EnlivenedBelowLimit | internal/events/service.go:94-392 | An event becomes live only through a call that found its owner below the limit |
| EventLifecycle.ReactivatedIsSafe | internal/events/service.go:293-392 | A reactivated event is at that moment neither due nor purgeable |
| EventLifecycle.StatusMoves | internal/events/model.go:72-87 | Statuses change only along the transition table, by reactivation, or when an expiry job marks a live event it has listed; archived and deleted events stay as they are |
| ListedEvents.ExpiredEarlyIff | internal/events/jobs.go:71-86 | In any run an event the job marks is not due at the job's start if and only if, after it was listed, the last of its owner's calls that set its expiry set it past that start; otherwise it is due |
| ListedEvents.ExpiredEarlyHappens | internal/events/repository.go:411-417 | An event extended between listing and marking ends expired with its expiry a month ahead |
| ListedEvents.PurgedWronglyIff | internal/events/jobs.go:97-121 | In any run an event goes only by being purged after being listed, and is then not to be purged if and only if its owner reactivated it in between and it was not deleted or marked again with a date by the cutoff |
| EventLifecycle.BackdatedIff | internal/events/service.go:223-287 | A call sets a deletion or expiry in the past exactly when it is an update of a live event to a changed expiry that is over |
| EventLifecycle.OnlyItsOwn | internal/events/repository.go:215-280 | A step changes no other event and no owner |
| ExpiryJob.EventRepository.ListDueExpiry | internal/events/repository.go:357-380 | The earliest due events, each once, at most the limit, all of them when fewer |
| ExpiryJob.EarliestExpireFirst | internal/events/repository.go:357-380 | Only events that are running, not deleted and past their expiry are listed; if one is left out the batch is full and lists none that expires later |
| ExpiryJob.EventRepository.MarkExpired | internal/events/repository.go:411-417 | One live event becomes expired |
| ExpiryJob.ExpireHandler | internal/events/jobs.go:71-86 | For any batch size ≥ 1 the loop ends and equals the one-shot update: exactly the due events expire, nothing else changes, none is left due, and the count is theirs |
| EventCalls.JobExpires | internal/events/jobs.go:71-86 | A whole run expires the events that are upcoming, active or completed, not deleted, and whose expiry had come when it started, and changes nothing else |
| ExpiryJob.MarkingKeepsOutcome | internal/events/repository.go:411-417 | Expiring one due event leaves the outcome of the whole update as it was |
| ObjectKeys.SafeFilename | pkg/r2/keys.go:56-68 | Any client file name becomes one path element that cannot climb out of its prefix, at most 200 long |
| ClientNames.KeyKeeps | pkg/r2/keys.go:54-68 | What is kept of a client's file name: its last path element without the blanks around it and the dots before it, at most its last 200 characters; "upload" if that is nothing |
| ClientNames.OneTakenApart | pkg/r2/keys.go:54-68 | A name can be taken apart into directories, blanks, dots and what is kept in only one way |
| ObjectKeys.KeysHavePrefix | pkg/r2/keys.go:10-52 | Originals, derivatives and exports all lie under their event's prefix |
| ObjectKeys.PrefixTellsEvent | pkg/r2/keys.go:10-52 | Keys of different events are disjoint |
| KeyParts.KeyIs | pkg/r2/keys.go:10-52 | Each key is the event's prefix, the directory of its kind, and the file in it |
| KeyParts.KeysTell | pkg/r2/keys.go:10-52 | Two keys are equal if and only if they are of the same user, event, kind and photo or export, up to what becomes of the client's file name |
| PurgeJob.Store.ListPurgeable | internal/events/repository.go:425-446 | The first purgeable events in order, all of them when fewer than the limit |
| PurgeJob.LongestOverFirst | internal/events/repository.go:425-446 | Only events deleted, or expired, by the cutoff are listed; if one is left out the batch is full and lists none that was deleted, or else expired, later |
| PurgeJob.Store.PurgeKeys | internal/events/repository.go:448-493 | Exactly the keys that the event's photo and export rows record |
| PurgeJob.Store.PurgeEvent | internal/events/jobs.go:123-142 | Objects first; the rows go only when every recorded object has; stopped anywhere it has touched nothing else |
| PurgeJob.Store.PurgeHandler | internal/events/jobs.go:97-121 | Wherever it stops only purgeable events have gone, with all their objects; completed, exactly those and none is left; it completes unless a call fails |
| PurgeJob.PurgedMeans | internal/events/jobs.go:94-142 | In dates, statuses and keys: an event goes only if it was deleted, or had expired, by the cutoff, with its photo and export rows and every object their keys name; a completed run takes all such events |
| PurgeJob.NoOrphansLeft | internal/events/jobs.go:94-142 | No crash point leaves an object that no row records |
| PurgeJob.WritesHandOut | internal/uploads/service.go:185-219 | Recording an upload, under a key whose item is not the new row's id, or derivatives, or an archive leaves every row with keys built for it |
| PurgeJob.OthersUntouched | pkg/r2/keys.go:10-52 | With every row holding only keys so built (an original's for its event, a derivative's or an archive's for the row), no stopping point of the job touches an object of an event that is not purgeable; and the rows that remain still hold such keys |
| PurgeJob.RecordedUnder | pkg/r2/keys.go:10-52 | Then every recorded key lies under the prefix of its own event |
| PurgeRaces.InvStep | internal/photos/repository.go:104-113 | Whatever step uploads, workers, exports, clients and the purge take, rows hold only such keys and belong to events that exist |
| PurgeRaces.CheckMeans | internal/uploads/service.go:491-513 | An upload finds an event open exactly if it is upcoming, active or completed, not deleted and not past its expiry |
| PurgeRaces.PurgedReturnsIff | internal/events/jobs.go:123-142 | When the purge deletes an event's row, an object the event recorded can be in the store at some later time if and only if it is there then, a URL for it is still good, or a call that read the row is still to sign or put it |
| PurgeRaces.GoneCanReturnIff | internal/events/jobs.go:94-142 | The same from any later point, for every key under the event's prefix |
| PurgeRaces.PurgedAloneReturnsIff | internal/events/jobs.go:123-142 | Undisturbed, the steps do what PurgeEvent does, and then only a good URL or such a call can bring an object back |
| PurgeRaces.StillThereMeansPut | internal/events/jobs.go:128-133 | An object among the keys that the job read, and still there when the row goes, was put in between |
| UrlLifetimes.GoodUrlMeans | internal/uploads/service.go:491-513 | In any run that sets no date in the past: a URL still good when its event's row rightly goes was signed without the check that the event is open, or at least grace less 15 minutes after it |
| UrlLifetimes.OutlivesIff | internal/platform/config/config.go:223-225 | A URL signed at that check can still be good when the row rightly goes if and only if the grace is at most 15 minutes, as EVENT_PURGE_GRACE_DAYS=0 is |
| UrlLifetimes.OutlivesReturns | internal/events/jobs.go:123-142 | And then the object can return |
| UrlLifetimes.AskedReturns | internal/uploads/service.go:283-299 | However long the grace, a fresh URL for a photo still UPLOADING, asked for just before the purge, can bring the object back |
| PurgeJob.UndisturbedRunsAreSafe | internal/events/jobs.go:94-142 | Over interrupted runs with nothing in between: no orphan appears, and what remains records what it did |
| KeysetPages.PostgresRepository.ListByEvent | internal/photos/repository.go:262-293 | The page is the first rows, in descending (created_at, id), of the matching ones below the cursor |
| KeysetPages.List | internal/photos/service.go:78-116 | The owner's page and its next cursor: the last row of a full page, none after a short one |
| KeysetPages.OneListing | internal/photos/repository.go:262-293 | A set of rows has only one descending listing, so a page is determined |
| KeysetPages.PageIs | internal/photos/repository.go:262-293 | What a page holds and what it leaves for the next |
| KeysetPages.IsListedIff | internal/photos/repository.go:262-275 | A photo is among those listed exactly if it is of the event and has the status asked for, if one is |
| KeysetPages.PageShows | internal/photos/repository.go:262-293 | A page in terms of the rows: the latest ones before the cursor, latest first; it leads on exactly when it is full, and then to all that it left out |
| KeysetPages.WalkDescends | internal/exports/jobs.go:160-182 | However the table changes between pages rows come in strictly descending order, none twice |
| KeysetPages.WalkFindsWhatStays | internal/exports/jobs.go:160-182 | Every row that matches at each request is found |
| KeysetPages.WalkFindsOnlyRows | internal/exports/jobs.go:160-182 | Only rows that match at some request are found |
| KeysetPages.EachExactlyOnce | internal/exports/jobs.go:160-182 | A row that stays comes exactly once, and no photo id twice while created_at never changes |
| KeysetPages.StaticWalk | internal/exports/jobs.go:160-182 | On n unchanging rows floor(n / page size) + 1 requests give the whole sorted listing, and no more are made |
| EntryNames.SeenNames.UniqueEntryName | internal/exports/jobs.go:263-275 | The map update gives the i-th name its entry by how many equal names came before |
| EntryNames.EntryIs | internal/exports/jobs.go:263-275 | The first of equal names stays as it is; the n-th after it is numbered n + 1 in front of its extension, which starts at the last dot of its last element |
| EntryNames.SuffixedStem | internal/exports/jobs.go:272-274 | The suffix goes in front of the extension, whatever dots and slashes the name has |
| EntryNames.SuffixTellsApart | internal/exports/jobs.go:265-275 | Ignoring case a suffixed name equals another if and only if name and number are the same |
| EntryNames.GeneratedAreDistinct | internal/exports/jobs.go:263-275 | Any two generated names differ, ignoring case |
| EntryNames.EntriesDistinctIff | internal/exports/jobs.go:263-275 | All entries are distinct if and only if no input is already the suffixed form of a repeated input |
| EntryNames.CollisionHappens | internal/exports/jobs.go:265-275 | a.jpg, a.jpg, a (2).jpg give the same entry twice |
| ExportArchive.EntryName | internal/exports/jobs.go:225-261 | Every photo asks for a plain file name: not empty, not dots, no separator |
| ClientNames.EntryKeeps | internal/exports/jobs.go:225-261 | It asks for what is kept of its file name, as for a key, or else for its id with the extension of its type |
| ExportArchive.BuildArchive | internal/exports/jobs.go:147-198 | It fails exactly when listing or reading does; otherwise one entry per visited photo whose object exists, in order, and the count of all visited |
| ExportArchive.ArchivedAt | internal/exports/jobs.go:160-182 | The entry of each object found stands behind as many others as objects were found before it |
| ExportArchive.EntriesArePlain | internal/exports/jobs.go:200-248 | Every entry of the archive is a plain file name, suffixed or not |
| TimeoutWriter.Writer.WriteHeaderLocked | pkg/httpx/security.go:98-105 | The handler's headers are laid over those already set and one status line is sent |
| TimeoutWriter.Writer.WriteHeader | pkg/httpx/security.go:107-115 | A late or second call is dropped and marks the writer timed out |
| TimeoutWriter.Writer.Write | pkg/httpx/security.go:117-128 | All bytes or none, and the handler is told which |
| TimeoutWriter.WriteAnswers | pkg/httpx/security.go:92-128 | A handler that just writes in time is answered 200 with its header over those already set, and its bytes |
| TimeoutWriter.Writer.Timeout | pkg/httpx/security.go:130-140 | The 504 envelope, if no status line was sent |
| TimeoutWriter.TimeoutAnswers | pkg/httpx/security.go:130-140 | In every run that has sent nothing before it, and whatever follows, the timeout path has the client served 504 with the JSON error and its content type |
| TimeoutWriter.NeverMixed | pkg/httpx/security.go:83-140 | For every interleaving the client is served one status line and one of three things: the envelope alone, a first part of the handler's own output, or, if the writer sent nothing, the server's empty 200 |
| TimeoutWriter.CompleteIff | pkg/httpx/security.go:107-128 | Without a deadline the writer sends the handler's own output if and only if no bytes follow a superfluous WriteHeader |
| TimeoutWriter.ServedCompleteIff | pkg/httpx/security.go:92-128 | And the client is served what the handler's calls alone would give if and only if, besides, the handler starts a response or its headers change nothing: headers of a handler that writes nothing are lost |
| TimeoutWriter.AnsweredIff | pkg/httpx/security.go:46-77 | The writer sends a response if and only if the timeout path runs or the handler starts one in time; otherwise the client is served the server's empty 200 |
| TimeoutWriter.EmptyOkHappens | pkg/httpx/security.go:66-74 | A timed-out request whose handler answers 404 too late is served an empty 200 |
| Decimals.Itoa | internal/events/slug.go:43-55 | The buffer loop writes the decimal numeral, for every 64-bit integer |
| Decimals.DecimalStandsFor | internal/events/slug.go:43-55 | Read from the left a numeral stands for its number, and it has no leading nought |
| Decimals.DecimalIsInjective | internal/events/slug.go:43-55 | A numeral tells its number |
| Slugs.Slugify | internal/events/slug.go:12-32 | The slug is the words between separators, lower-case, hyphenated, cut to 255 |
| SlugText.SeparatorParts | internal/events/slug.go:19-27 | Between two names one of the seven separators puts a hyphen between their slugs, if both have one |
| SlugText.OthersVanish | internal/events/slug.go:17-27 | A character that is no ASCII letter or digit and no separator leaves no trace |
| SlugText.CapitalsFall | internal/events/slug.go:19-21 | A capital gives the same slug as its small letter |
| Slugs.SlugShape | internal/events/slug.go:12-32 | A slug matches [a-z0-9]+(-[a-z0-9]+)* and is at most 255 long, or is empty: exactly when the name has no ASCII letter or digit |
| Slugs.SlugifyIsIdempotent | internal/events/slug.go:12-32 | Slugify leaves every slug as it is |
| Slugs.SuffixSlug | internal/events/slug.go:35-41 | The slug, cut to make room, with its number, for every 64-bit integer; a negative one leaves a bare hyphen |
| SlugText.NumberFollows | internal/events/slug.go:35-41 | Where there is room a numbered slug is the slug, a hyphen and the number |
| Slugs.NumberedIsSlug | internal/events/slug.go:35-41 | A numbered slug has the shape and length of a slug |
| Slugs.NumberTells | internal/events/slug.go:35-41 | Numbered slugs of one base differ, even after cutting |
| Slugs.UniqueSlug | internal/events/service.go:507-524 | The first candidate not taken; none only if all are taken or a lookup fails; always one when fewer than 997 are taken |
| Slugs.AllTaken | internal/events/service.go:507-524 | If every candidate is taken at least 997 slugs are |
| Slugs.BaseMayRepeat | internal/events/slug.go:35-41 | A base of full length can be its own second candidate, which is why 997 and not 998 |
| QrSvg.RenderSvg | internal/qr/service.go:102-124 | The nested loops emit the head, the path data of the runs, and the foot |
| QrSvg.PathRead | internal/qr/service.go:107-121 | The path data parses (section 8.3 of SVG 1.1) into the commands of the runs |
| QrSvg.ReadsBack | internal/qr/service.go:102-124 | Read back, the path has no slanted segment and winds exactly once around every dark cell and not around any other |
| QrSvg.PathTellsBitmap | internal/qr/service.go:102-124 | Bitmaps with the same path have the same dark cells |
| QrSvg.RunsCover | internal/qr/service.go:107-121 | Each dark cell lies in exactly one rectangle of its row, a light one in none |
| QrSvg.FewestRectangles | internal/qr/service.go:107-121 | No set of rectangles that covers exactly a row's dark cells is smaller |
| QrSvg.RunsAreCover | internal/qr/service.go:107-121 | The runs of a row are themselves such a set |
| Gallery.Service.PhotoURL | internal/gallery/service.go:251-292 | The single call's answer, and one recorded download for a signed original only |
| GalleryAccess.UrlIff | internal/gallery/service.go:251-292 | A URL is given exactly if the event is not deleted, archived, expired or private, a password is met by a token that unlocks it, an original is allowed by settings and plan, and the photo is a READY one of that event; it is the signature of the photo's own key for the variant |
| GalleryAccess.VisibleIff | internal/gallery/service.go:95-126 | A gallery is visible exactly if its slug is that of an event not deleted, archived, expired or private, and a password is met by a token that unlocks it |
| GalleryAccess.RefusalIff | internal/gallery/service.go:251-292 | Each error is given exactly when that obstacle is the first |
| GalleryAccess.RecordedIff | internal/gallery/service.go:281-292 | A download is recorded exactly for an original that is given |
| Gallery.Service.BatchPhotoURLs | internal/gallery/service.go:297-366 | Policy errors are the single call's; for 1 to 100 valid ids a URL is given exactly when the single call gives that one; a signing failure fails the batch; downloads recorded are the sum over the distinct ids |
| GalleryAccess.BatchGives | internal/gallery/service.go:297-366 | A batch gives exactly the URLs its visitor may have for the ids asked for |
| GalleryAccess.BatchRuledOutIff | internal/gallery/service.go:297-320 | What rules a whole batch out, by the event, the token, the variant and the download settings |
| GalleryAccess.BatchFailsIff | internal/gallery/service.go:336-366 | It fails exactly when a URL that its visitor may have cannot be signed |
| Gallery.PolicyCoincides | internal/gallery/service.go:294-296 | A policy error answers every single call; otherwise only the photo itself can fail |
| Gallery.AskedOnce | internal/gallery/service.go:322-334 | Each id asked for is handled exactly once |
| Gallery.AloneIs | internal/photos/urls.go:33-64 | Past the policy the single call signs a ready photo's key and finds no other |
| AuthService.Service.Login | internal/auth/service.go:110-138 | Locked, wrong and right passwords: what each does to the account and the tokens |
| SessionCalls.LockedLogin | internal/auth/service.go:110-124 | A login is answered "locked" exactly before the end of the lock, and then changes nothing |
| SessionCalls.WrongLogin | internal/users/repository.go:90-98 | A wrong password adds one failure, and locks the account for the lockout's duration exactly at the limit |
| SessionCalls.RightLogin | internal/auth/service.go:125-138 | The right one leaves no failures and no lock, and starts a family with one token good for the refresh time |
| SessionCalls.SuccessClears | internal/users/repository.go:100-105 | After the right password as many wrong ones as the limit are all compared, whenever they come |
| AuthService.Service.Refresh | internal/auth/service.go:140-172 | Rotation, expiry and reuse, and what is kept when issuing fails |
| SessionCalls.RefreshMeans | internal/auth/service.go:140-165 | Unknown, revoked and expired tokens: the answer and the rows each leaves |
| SessionCalls.RefreshExchanges | internal/auth/service.go:159-172 | An unrevoked token is good up to and including its last moment; it is spent, and one of its family and user comes in its place |
| AuthService.Service.Logout | internal/auth/service.go:174-190 | The presented token is revoked, silently if unknown |
| SessionCalls.RevocationsMean | internal/auth/repository.go:75-91 | Logging out revokes that token only; a reset revokes all of the user's and nobody else's |
| AuthService.Service.ConfirmPasswordReset | internal/auth/service.go:216-251 | A reset succeeds exactly with a fresh token and a password of 8 to 128; it spends the token, replaces the password and revokes the user's tokens |
| RefreshFamilies.OneLiveAlways | internal/auth/service.go:140-278 | For calls that follow one another: every family has at most one unrevoked token, and one user, in every reachable state |
| RefreshFamilies.DeadStaysDead | internal/auth/repository.go:53-91 | For such calls: a family with none never gets one again |
| RefreshFamilies.ReuseKills | internal/auth/service.go:152-158 | Presenting a revoked token ends its family |
| RefreshFamilies.LogoutKillsIff | internal/auth/service.go:174-190 | Logout ends the family if and only if the token was its live one or it was dead already |
| RefreshFamilies.ResetKillsAll | internal/auth/repository.go:87-91 | A password reset ends every family of the user and no other |
| RefreshFamilies.ExchangedAtMostOnce | internal/auth/service.go:140-172 | Over any run of such calls a refresh token is exchanged at most once |
| RefreshFamilies.ReplayEndsFamily | internal/auth/service.go:140-172 | For such calls: a second presentation of an exchanged token ends its family for the rest of the run |
| RefreshCalls.StaysDeadIff | internal/auth/service.go:140-172 | However statements interleave, a family that has died, by whatever call, stays dead if and only if no refresh that had read its token before that inserts a new one after |
| RefreshCalls.LateGrantHappens | internal/auth/service.go:238-249 | A refresh that read before a password reset gives the ended family a live token |
| RefreshCalls.ExchangedAgainIff | internal/auth/repository.go:75-79 | When a token is exchanged it can be exchanged once more if and only if another refresh of it is then between its reading and its end |
| RefreshCalls.TwoLiveMeansTwice | internal/auth/service.go:140-172 | In any run a family has two live tokens only if one of its tokens has been exchanged twice |
| RefreshCalls.AloneIsRefresh | internal/auth/service.go:140-172 | The statements of one refresh, undisturbed, do what Refresh does |
| Lockout.LoginIsAttempt | internal/auth/service.go:110-138 | A login is one step of the account's lockout state |
| Lockout.ChecksAreApart | internal/users/repository.go:90-98 | Once the failures have reached the limit the next check comes a whole lockout later |
| Lockout.ChecksTakeTime | internal/users/model.go:22-24 | The (max + j)-th password check comes at least j lockouts after the max-th |
| Lockout.FailuresAreBounded | internal/users/repository.go:90-98 | Within a time T at most max + floor(T / lockout) wrong passwords are compared, from any state of the account |
| Lockout.BoundIsMet | internal/users/repository.go:90-98 | An attempt each time the lock runs out is checked each time, so the rate cannot be bounded lower |
| LoginCalls.LateIsBounded | internal/auth/service.go:120-131 | With up to n attempts in flight at most 1 + … + n passwords are compared at the limit within one lockout's time |
| LoginCalls.LockCutShort | internal/users/repository.go:90-98 | That is reached: a failure recorded after that of a later attempt cuts the lock short |
| LoginCalls.ChecksAreBounded | internal/users/repository.go:90-98 | Within a time T at most max - 1 + (floor(T / lockout) + 1) × (1 + … + n) wrong passwords are compared, from any state of the account; for n = 1 that is Lockout's bound |

## Left out

- HTTP handlers, JSON, S3, presigning, image codecs, JWT, bcrypt, mail, logging, metrics and the dashboard: input and output, or libraries; signing and password checks are parameters.
- The database failing: modelled for webhooks, the purge, the export, the queue and token issue; elsewhere a call whose statement fails is not a step, though what it did before stays done in the source.
- A statement that commits and still reports an error is not modelled, in webhooks either.
- String lengths count characters where the source counts bytes (200 in file names, 8 to 128 in passwords); file names that are not valid UTF-8 are not modelled.
- uploads initialize: idempotency keys (but for the URL that a replay signs, in PurgeRaces), plan-limit and upload validation checks, and multipart parts; the storage quota is not a hard bound in the source, since uploads in flight are not counted.
- Plan limits under concurrent calls: service operations of the event lifecycle are atomic here.
- ExpiryJob.ExpireHandler: a whole run of the job with nothing else changing the rows meanwhile; what changes between a listing and its mark is ListedEvents' subject. Errors of its two calls stop it where it is.
- PurgeJob.Store.PurgeHandler: a run of the job with no upload to the same event meanwhile; an event reactivated after it was listed is ListedEvents' subject.
- Objects that no row records, such as a derivative whose worker crashed before the row was updated: the purge does not find them.
- PurgeRaces.PurgedReturnsIff: a put lands while its URL is good; one that starts in time and ends later is not modelled. Two runs of the purge job at once on one event are not modelled.
- UrlLifetimes.GoodUrlMeans: runs in which no owner sets an expiry in the past (EventLifecycle.BackdatedIff), and rows that are still purgeable when they go; ListedEvents says when they are not.
- UploadService.Service.Complete: does not model the ownership check and the lookup of the idempotency key before it.
- JobQueue.PostgresQueue.Claim: one call undisturbed; SKIP LOCKED may pass over a ready row that another transaction holds, so in QueueProtocol a claim may take any ready job.
- EventService.Service.Create: settings, the plan's original-download limit and slug failures are one flag, tested first.
- EventService.Service.Update: does not model the name and e-mail checks.
- ObjectKeys.SafeFilename: the limit of 200 is in characters, the source's in bytes.
- KeysetPages.List: does not model the answers for a foreign event, a malformed cursor or an unknown status.
- ExportArchive.BuildArchive: does not model failures of the temporary file, the archive writer and the upload.
- AuthService.Service.ConfirmPasswordReset: password length is in characters, the source's in bytes; a failure between spending the token, replacing the password and revoking the sessions leaves the earlier ones done in the source and is not modelled.
- RefreshFamilies.OneLiveAlways: calls that follow one another; for overlapping ones see RefreshCalls.TwoLiveMeansTwice.
- RefreshFamilies.DeadStaysDead: calls that follow one another; for overlapping ones see RefreshCalls.StaysDeadIff.
- RefreshFamilies.ExchangedAtMostOnce: calls that follow one another; for overlapping ones see RefreshCalls.ExchangedAgainIff.
- RefreshFamilies.ReplayEndsFamily: calls that follow one another; a refresh in flight can issue after the replay, as StaysDeadIff says.
- Lockout.FailuresAreBounded: attempts that follow one another; for overlapping ones see LoginCalls.ChecksAreBounded.
- LoginCalls.ChecksAreBounded: every failed attempt is recorded in the end, and attempts read the clock in the order in which they read the account.
- Expiry warnings, notifier and analytics other than downloads, and a gallery without an analytics recorder.
- QueueProtocol.ScheduledOneAtATime: EnqueueUnique statements that do not overlap; for overlapping ones see ScheduleRaces.OneAtATimeIff.
- Liveness of job processing: a ready job may wait for ever if no goroutine claims it.
- Invoices issued at the same instant: the order in which the latest open one is then chosen is by the model's id.
- WebhookRuns.OrderDoesNotMatter: deliveries that follow one another, and no payments that name no invoice; for those the order matters exactly as NamelessRunIff says. Overlapping ones can even share an invoice (OneInvoiceForTwo).
- WebhookRuns.FinalState: deliveries that follow one another; the overlapping ones are in WebhookOutcomes.
- WebhookRuns.DeliveryRevivesNothing: an undisturbed delivery; for overlapping ones see WebhookOverlaps.RevivedIff.
- A delivery that stops between recording and applying an event leaves the record, so the event is never applied; the final outcomes are for runs in which each event is applied at some delivery.
- Subscribe, changePlan, Cancel, Resume, plan prices and lazy expiry of subscriptions: each changes one subscription after an answer of the payment provider, which is not part of this model.
- Clocks that go backwards in the rate limiter, and the internals of its token bucket.
- TimeoutWriter: does not cover a panicking handler, or what a handler still writes after its client has gone; of net/http it takes only the implicit 200, not the headers the server adds itself; header fields are set or deleted on the handler's own map, so Add to a field set by middleware replaces it, as in the source.
- The export cleanup job, archive upload and the encoding of cursors: loops of the shape of the expiry job, and input and output.
- QrSvg: does not cover how the QR library makes the bitmap; the size in the head is the number of rows.
- Unlock tokens' own format, galleries' listing pages and branding.
- Slugs.UniqueSlug: the user's slugs do not change while one is looked for; a slug taken in between is refused by the unique index (`migrations/0003_events.sql:22`).
