# Synapse Core in Dafny

Synapse Core processes callbacks for a payment anchor.  This project models the parts of it whose
correctness is hardest to see by reading, and proves what they promise for every input, every run and
every interleaving:

- the lock-free token bucket, the authentication counters and the per-identity limiter built on both;
- keyset paging over tables that change between requests, the streaming export, and the WHERE clauses
  that both build at run time;
- the rotation of fleet-wide secrets and of tenant API keys, with its audit trail;
- audit retention, which archives rows before it deletes them, and the audit hash chain;
- settlement status updates and the monthly partitions of the transactions table.

Code that updates objects or tables is a class or a method, proved against a function on values; the
theorems are about those functions.  Concurrent code is a state machine whose steps are single atomic
operations (or single database, storage and Vault operations) of any number of participants, and its
theorems hold for every sequence of events.  Clock readings, commit outcomes, failures and answers of
other systems are inputs.

`dafny verify dfyconfig.toml` checks everything.

| module | contents |
|---|---|
| `Machine`, `Timeline` | fixed-width arithmetic and integer division; events at instants of a clock |
| `TokenBucket`, `Polling`, `LimiterInterleaving` | the bucket called sequentially, polled, and shared by threads |
| `AuthMetrics`, `AuthRateLimiter` | the outcome counters, and one bucket per identity |
| `Keyset`, `Listings`, `ExportStream` | walks over changing snapshots, the page handlers, the batch loops |
| `Decimals`, `WhereClauses` | decimal text, and clauses with numbered placeholders |
| `SecretRotation`, `TenantKeys` | the fleet protocol, and tenant keys with their audit log |
| `AuditRetention`, `HashChain` | archive, record, delete; and the chain of digests |
| `Settlements`, `Partitions` | compare-and-set updates, and the tiling of time by months |

## Findings

Several promises are false of the code as it stands.  Each has a concrete counterexample and, beside it,
the condition under which it holds.

- A refill loads `tokens` and stores the sum later.  Tokens taken in between are forgotten
  (`OverlapBreaksRateBound`), and two refills at once are paid for by the same time
  (`DoubleRefillBreaksRateBound`); either breaks the rate bound.  In every interleaving the bound holds with
  these as explicit excess terms, tokens put back for nothing and time credited twice (`ExcessBound`), and
  without such collisions, everything else interleaving freely, both terms are zero
  (`NonCollidingRefillsKeepRateBound`).
- `validate` loads its counters one by one and can reject counters that are consistent at every moment
  (`ValidateRejectsAcrossGate`).  It accepts if and only if no more threads pass the gate between its first
  two loads than there were attempts without an outcome, and no more outcomes are counted between its later
  loads than threads were past the gate at the second (`ValidateAcceptsIff`).
- Archive names have a resolution of one second.  A write under a name already used can replace the only
  copy of deleted rows (`SharedKeyLosesRow`), or an archive whose run has yet to record it and delete
  (`RacingWritesLoseRow`).  For every run and every choice of names, no row is ever lost if and only if
  every write keeps the deleted rows that only its name covers and every delete finds its rows covered
  (`RunLosesIff`); distinct names meet these guards (`NoRowLost`, `FreshKeysAreSafe`).
- Disputed rows are described as never deleted.  A row whose entity is disputed is deleted if the dispute
  query fails, and also if the dispute is opened after the query (`DisputedRowDeleted`).  Whatever happens
  in between, a fetched row still live is deleted if and only if the query failed or its entity was not
  disputed at the query (`DeletedIff`).
- Refill arithmetic wraps for some configurations.  It equals the intended arithmetic on every state if
  and only if the configuration satisfies `Fits` (`RefillExactIffFits`).  The rate bound holds even where
  it wraps; that polling never helps and that it costs at most half each hold for exactly the
  configurations of `PollingNeverHelpsIff` and `PollingCostsAtMostHalfIff`.
- The wait reported for an empty bucket can end without a token (`WaitFallsShort`).  It suffices if and only
  if the clock runs out first, or there are a window and a maximum and the clock was not read behind the
  last refill or the window since that reading is worth a token (`WaitIsEnoughIff`, `WaitIsEnoughClosed`).
- The counters part from the buckets after 2^64 checks (`EndlessChecksDiverge`) and reconcile throughout a
  run if and only if there are fewer (`MetricsReconcileIff`).
- A backward page of the listings drops the row nearest to the cursor, because the handler truncates
  after the query layer has reversed (`BackwardDropsNearest`, `BackwardKeepsNearestIffLast`).

## Model

| member | source | states |
|---|---|---|
| `Machine.QuotientIsDivision` | src/cache/rate_limiting.rs:266 | the division used throughout the bucket proofs is integer division |
| `TokenBucket.RateBound` | src/cache/rate_limiting.rs:175-275 | in every run of non-overlapping acquires and polls since creation at t0, for any clock readings, forward or backward, and even where arithmetic wraps: window * (granted + left) <= max * (window + last_refill - t0), and the bucket never exceeds its maximum |
| `TokenBucket.LastRefillMonotone` | src/cache/rate_limiting.rs:246-275 | `last_refill_ms` never moves back over a run, whatever the clock reads |
| `TokenBucket.ServePaid` | src/cache/rate_limiting.rs:175-211 | what one call hands out and leaves is paid for by the time it moves `last_refill_ms` |
| `TokenBucket.RefillPaid` | src/cache/rate_limiting.rs:246-275 | what one refill adds is paid for by the time it moves `last_refill_ms` forward |
| `TokenBucket.RefillRecent` | src/cache/rate_limiting.rs:246-275 | a refill whose elapsed time is worth a token counts itself and is stamped with the clock reading, any other leaves the bucket alone, and less than a window is open after it |
| `TokenBucket.StretchBound` | src/cache/rate_limiting.rs:175-275 | by clock readings alone, for any stretch of a run with a clock that does not run backward: window * granted after reading t up to reading T <= max * (2 * window + T - t) |
| `TokenBucket.FreshAdmits` | src/cache/rate_limiting.rs:151-163 | a new limiter admits exactly what its maximum allows, at once |
| `TokenBucket.ResetIsNew` | src/cache/rate_limiting.rs:237-244 | a reset limiter answers every later run of calls like one created at that moment, its counts going on |
| `TokenBucket.ZeroWindowConserves` | src/cache/rate_limiting.rs:251-253 | with a zero window tokens granted and left always add up to the maximum |
| `TokenBucket.RefillExactIffFits` | src/cache/rate_limiting.rs:264-271 | the wrapping refill equals the refill over unbounded integers on every state if and only if neither the product nor the sum can exceed its width |
| `TokenBucket.WrappingWitness` | src/cache/rate_limiting.rs:266-269 | every configuration that does not fit has a state it refills wrongly |
| `Polling.PollingNeverHelps` | src/cache/rate_limiting.rs:246-275 | refills at any non-decreasing times leave no more tokens than one refill at the last of them |
| `Polling.PollingNeverHelpsIff` | src/cache/rate_limiting.rs:264-271 | that holds for all buckets and polls if and only if nothing wraps, or even the smallest share wraps a full bucket and all shares are multiples of it, or the product wraps and no partial refill adds anything |
| `Polling.PollingHelps` | src/cache/rate_limiting.rs:264-271 | a bucket and two polls that beat one, for every other configuration |
| `Polling.PollingCostsAtMostHalf` | src/cache/rate_limiting.rs:264-273 | over partial, uncapped refills the tokens added are at least half of the proportional share of the time `last_refill_ms` moved |
| `Polling.PollingCostsAtMostHalfIff` | src/cache/rate_limiting.rs:264-273 | that holds for all buckets and polls if and only if every product that wraps does so to less than one token |
| `Polling.WrapsToNothingClosed` | src/cache/rate_limiting.rs:266 | that condition in closed form, max * (window - 1) < 2^64 + window: always sufficient, and necessary unless window + max > 2^64 |
| `Polling.PollingHelpsWhenWrapping` | src/cache/rate_limiting.rs:268-270 | an instance whose sum wraps |
| `Polling.PollingCostsMoreWhenWrapping` | src/cache/rate_limiting.rs:266 | an instance whose product wraps |
| `TokenBucket.WaitIsEnoughIff` | src/cache/rate_limiting.rs:213-225 | every refill after the wait reported for an empty bucket leaves at least one token, if and only if the clock ends before the wait does, or window and maximum are positive and the second clock reading is not behind `last_refill_ms` or any time from the window's passing since that reading to the window's end is worth a token |
| `TokenBucket.WaitIsEnoughClosed` | src/cache/rate_limiting.rs:213-225 | for a reading behind `last_refill_ms` and products that do not wrap: if and only if max times the time since the last refill at the end of the wait is at least the window |
| `TokenBucket.WaitFallsShort` | src/cache/rate_limiting.rs:213-225 | an empty bucket and a clock reading whose wait ends without a token |
| `TokenBucket.WaitEndsWithWindow` | src/cache/rate_limiting.rs:216-225 | the wait is zero while tokens remain and never longer than the window, and for an empty bucket ends exactly when the window since the last refill does |
| `TokenBucket.RateLimiter.constructor` | src/cache/rate_limiting.rs:151-163 | a new limiter is full and its clock starts now |
| `TokenBucket.RateLimiter.RefillTokens` | src/cache/rate_limiting.rs:246-275 | the branches and stores of the refill produce the specified bucket |
| `TokenBucket.RateLimiter.TryAcquireN` | src/cache/rate_limiting.rs:175-199 | the exchange loop grants all or nothing from a value it has seen, counts exactly one outcome, stays within the cap, and without rivals is the sequential acquire |
| `TokenBucket.RateLimiter.AvailableTokens` | src/cache/rate_limiting.rs:208-211 | refills and reports what is left |
| `TokenBucket.RateLimiter.TimeUntilAvailable` | src/cache/rate_limiting.rs:216-225 | polls, then reports zero or the rest of the window by a second clock reading |
| `TokenBucket.RateLimiter.Clear` | src/cache/rate_limiting.rs:237-244 | a reset fills the bucket and restarts its clock, leaving the counts |
| `LimiterInterleaving.EveryInterleavingSafe` | src/cache/rate_limiting.rs:175-275 | in every interleaving of any number of acquires, polls and resets: tokens within the cap, no pending store above it, no pending subtraction that underflows, and at most one full bucket gained per store |
| `LimiterInterleaving.ExchangesConserve` | src/cache/rate_limiting.rs:178-198 | between stores to `tokens`, concurrent exchange loops keep tokens left plus tokens granted constant |
| `LimiterInterleaving.ZeroWindowExact` | src/cache/rate_limiting.rs:251-253 | with a zero window no store ever happens, so granted plus left is the maximum in every interleaving |
| `LimiterInterleaving.AloneIsSequential` | src/cache/rate_limiting.rs:175-211 | the atomic steps of a call that no other thread interrupts add up to the sequential call |
| `LimiterInterleaving.ResetAlone` | src/cache/rate_limiting.rs:237-244 | the two stores of a reset that no other thread interrupts are the sequential reset |
| `LimiterInterleaving.EveryAcquireDecided` | src/cache/rate_limiting.rs:175-199 | in every interleaving, retries included: every acquire begun has taken exactly what it was asked for, was refused when there were fewer tokens, or is undecided; tokens granted and both counts are those of the decisions |
| `LimiterInterleaving.NonCollidingRefillsKeepRateBound` | src/cache/rate_limiting.rs:246-275 | the rate bound holds in every interleaving in which no refill is decided on during another and no tokens are taken between a partial refill's load and its store |
| `LimiterInterleaving.EveryInterleavingAccounted` | src/cache/rate_limiting.rs:175-275 | in every interleaving of acquires, polls and resets, at every step and for any clock readings: window * (granted + left) <= max * (window + time credited) + window * tokens put back for nothing, time credited being what `last_refill_ms` moved, what was credited twice and what is about to be stored |
| `LimiterInterleaving.ExcessBound` | src/cache/rate_limiting.rs:175-275 | so whenever no refill is between its two stores, the time credited twice and the tokens put back are all that a run can exceed the sequential bound by |
| `LimiterInterleaving.OverlapBreaksRateBound` | src/cache/rate_limiting.rs:268-270 | a run with a single refill, an acquire between its load and its store, and the rate bound broken once both calls have returned |
| `LimiterInterleaving.DoubleRefillBreaksRateBound` | src/cache/rate_limiting.rs:246-275 | a run with two refills at once and no acquire between load and store, and the rate bound broken |
| `AuthMetrics.EveryInterleavingBalanced` | src/auth/metrics.rs:105-173 | in every interleaving, although the gate uses a stale total: successes + failures + threads between gate and count == outcomes <= attempts |
| `AuthMetrics.StepBalanced` | src/auth/metrics.rs:105-127 | every atomic step keeps that invariant and lowers no counter |
| `AuthMetrics.RoomToRecord` | src/auth/metrics.rs:105-114 | a thread past the gate never meets a saturated counter, so no gated outcome is lost |
| `AuthMetrics.OutcomeAlone` | src/auth/metrics.rs:116-173 | the atomic steps of an outcome recorded without interruption add up to the sequential call, on the counter asked for |
| `AuthMetrics.AttemptAlone` | src/auth/metrics.rs:105-141 | the same for an attempt and for a validation error |
| `AuthMetrics.CountersAreMeant` | src/auth/metrics.rs:105-173 | in every interleaving each counter plus the threads on their way to it is the number of attempts, validation errors, or outcomes of its kind asked for that passed the gate |
| `AuthMetrics.OutcomesLand` | src/auth/metrics.rs:150-173 | for successes and failures without any bound on the run |
| `AuthMetrics.EveryOutcomeDecided` | src/auth/metrics.rs:116-127 | in every interleaving every outcome asked for went through while there were fewer outcomes than the total its thread had read, was turned away when there were not, or is still at the gate |
| `AuthMetrics.QuiescentExact` | src/auth/metrics.rs:139-173 | once all threads are idle successes plus failures equal outcomes |
| `AuthMetrics.ValidateAcceptsIff` | src/auth/metrics.rs:267-289 | `validate`, its four loads separated by any events, accepts if and only if no more threads pass the gate between the first two loads than attempts were open at the first, and successes counted between loads two and three plus failures between two and four are no more than the threads past the gate at the second |
| `AuthMetrics.RunCounts` | src/auth/metrics.rs:105-127 | over any run the counters move by exactly the exchanges that succeed at the gate and at each counter |
| `AuthMetrics.ValidateAcceptsWithoutGate` | src/auth/metrics.rs:267-289 | in particular it accepts if no thread passes the gate in between |
| `AuthMetrics.ValidateRejectsAcrossGate` | src/auth/metrics.rs:268-271 | a run in which it rejects counters that are consistent throughout |
| `AuthMetrics.IncrementUntilStored` | src/auth/metrics.rs:105-114 | the loop stores one more than the last value it saw, saturating |
| `AuthMetrics.Collector.RecordAttemptCall` | src/auth/metrics.rs:139-141 | one more attempt, saturating, and nothing else |
| `AuthMetrics.Collector.RecordOutcomeIfAllowed` | src/auth/metrics.rs:116-127 | passes exactly when fewer outcomes than attempts are recorded |
| `AuthMetrics.Collector.RecordOutcomeCall` | src/auth/metrics.rs:150-173 | counts the outcome on its side exactly when the gate lets it through |
| `AuthMetrics.Collector.ValidateCall` | src/auth/metrics.rs:267-289 | accepts exactly when successes plus failures <= outcomes <= attempts |
| `AuthMetrics.Collector.Clear` | src/auth/metrics.rs:297-303 | all counters are zero |
| `AuthRateLimiter.IdentityIsolation` | src/auth/rate_limiting.rs:171-265 | in every sequential run over any identities, the answers and the bucket of one identity are those of a lone limiter created at its first check and fed only its calls |
| `AuthRateLimiter.IdentityIsBucket` | src/auth/rate_limiting.rs:171-226 | what an identity has been admitted, what it is told remains and its bucket are those of a lone token bucket created at its first check, called with an acquire of one token per check, a poll after each rejection and a poll per question |
| `AuthRateLimiter.IdentityRateBound` | src/auth/rate_limiting.rs:171-194 | so the rate bound holds for every identity, whatever the others do |
| `AuthRateLimiter.CheckCostsOne` | src/auth/rate_limiting.rs:178-192 | a check is admitted exactly when the refilled bucket holds a token and then leaves one fewer; otherwise it reports the wait in whole seconds |
| `AuthRateLimiter.MetricsReconcile` | src/auth/rate_limiting.rs:171-194 | successes and failures equal the acquired and rejected counts summed over all buckets, and every attempt is one or the other |
| `AuthRateLimiter.MetricsReconcileIff` | src/auth/rate_limiting.rs:171-194 | they do so throughout a run if and only if it has fewer than 2^64 checks of valid identities |
| `AuthRateLimiter.EndlessChecksDiverge` | src/auth/rate_limiting.rs:171-194 | a run of 2^64 checks in which they do not |
| `AuthRateLimiter.CheckReconciled` | src/auth/rate_limiting.rs:171-194 | every check keeps counters and buckets reconciled |
| `AuthRateLimiter.Limiter.constructor` | src/auth/rate_limiting.rs:148-160 | a new limiter has no buckets and zero counters |
| `AuthRateLimiter.Limiter.GetOrCreateAuthBucket` | src/auth/rate_limiting.rs:254-265 | returns the identity's bucket, creating a full one on first use and touching no other |
| `AuthRateLimiter.Limiter.CheckAuthRateLimit` | src/auth/rate_limiting.rs:171-194 | verdict, bucket, counters and reported wait of one check |
| `AuthRateLimiter.Limiter.RemainingAuthTokens` | src/auth/rate_limiting.rs:222-226 | refills an existing bucket, creates none |
| `Keyset.SortedFacts` | src/db/queries.rs:1052-1056 | the descending listing of a snapshot is sorted and has exactly its keys |
| `Keyset.WalkDescends` | src/db/queries.rs:1023-1040 | over any changing snapshots, a walk that follows the last key returns strictly descending keys, so none twice |
| `Keyset.WalkComplete` | src/db/queries.rs:1023-1063 | a key that matches in every snapshot is returned by a walk that ran to its end |
| `Keyset.WalkSound` | src/db/queries.rs:1023-1063 | every key returned matched in some snapshot |
| `Keyset.StillWalk` | src/db/queries.rs:1023-1063 | on an unchanging table the pages concatenate to the whole sorted listing |
| `Listings.KeyOrder` | src/db/queries.rs:1025-1038 | SQL's row comparison of (created_at, id) is the order of the integer keys |
| `Listings.ForwardWalk` | src/handlers/webhook.rs:666-686 | a forward walk followed until has_more is false: strictly descending, nothing made up, everything present throughout returned, and the whole sorted listing if nothing changed |
| `Listings.TransactionWalk` | src/handlers/webhook.rs:617-686 | the same four guarantees on transaction tables: every key returned is of a row within the dates that is the tenant's own or nobody's, and every row of which that is true throughout is returned |
| `Listings.SettlementWalk` | src/handlers/settlements.rs:44-79 | the same four on settlement tables, for every limit parameter, a settlement counting if a transaction links to it that is the tenant's own or nobody's |
| `Listings.PagesAreWalk` | src/handlers/webhook.rs:679-686 | the truncated pages and their cursors are a keyset walk that leaves nothing behind |
| `Listings.ForwardResponse` | src/handlers/webhook.rs:666-686 | fetching one row too many and truncating yields the page, its last key, and whether more follows |
| `Listings.ProgressIffPositive` | src/handlers/webhook.rs:624 | a page that promises more is non-empty, for all tables and cursors, exactly when the effective limit is positive; the handler only caps it from above |
| `Listings.StillWalkTerminates` | src/handlers/webhook.rs:679-686 | on an unchanging table each page that goes on leaves exactly `limit` rows fewer |
| `Listings.StillWalkRequests` | src/handlers/webhook.rs:679-686 | a walk over an unchanging table takes exactly as many requests as its rows need |
| `Listings.EffectiveLimits` | src/handlers/settlements.rs:49 | default, cap and floor of the limit of both listings |
| `Listings.ListTransactions` | src/handlers/webhook.rs:624-686 | default and cap of the limit, fetch, truncation and cursor, negative limits included |
| `Listings.Paginate` | src/handlers/settlements.rs:72-79 | truncation in place, has_more, and the cursor of the last row kept |
| `Listings.SearchWalk` | src/handlers/search.rs:98-104 | search, which goes on exactly while pages are full, has the same four guarantees |
| `Listings.StillSearchRequests` | src/handlers/search.rs:98-104 | a search of an unchanging table takes the requests its rows need, and one more when they fill the last page |
| `Listings.SearchCompleteIffPositive` | src/handlers/search.rs:35-104 | a search of an unchanging table followed to its end returns the whole listing exactly when the limit is positive |
| `Listings.BackwardSlice` | src/db/queries.rs:1054-1083 | the query layer's backward page is the slice of the descending listing just above the cursor |
| `Listings.BackwardNearest` | src/db/queries.rs:1054-1083 | at most n keys above the cursor, descending, none of those left out nearer to it, and fewer than n only if there are no others |
| `Listings.BackwardKeepsNearestIffLast` | src/handlers/webhook.rs:679-682 | a backward page contains the row nearest to the cursor if and only if it is the last page |
| `Listings.BackwardDropsNearest` | src/handlers/webhook.rs:679-682 | two rows above a cursor of which a page of one shows the farther |
| `ExportStream.ExportComplete` | src/handlers/export.rs:225-312 | for tables that change between batches: ids strictly ascend and each matched in some batch, even if the stream fails, and a completed stream has every row that matched throughout |
| `ExportStream.EmitIsWalk` | src/handlers/export.rs:225-312 | what a stream emits is the beginning of a keyset walk, and all of it when it completes |
| `ExportStream.Deliver` | src/handlers/export.rs:267-308 | the row loop delivers all rows, or those before an error, and leaves `last_id` at the last one |
| `ExportStream.Stream` | src/handlers/export.rs:230-312 | the batch loop emits what the specification says, and ends on an empty batch or an error |
| `ExportStream.StreamStill` | src/handlers/export.rs:327-407 | on an unchanging table the loop ends, with the matching rows past `last_id` as its measure, having emitted the whole sorted listing |
| `WhereClauses.SearchQuery` | src/db/queries.rs:1694-1822 | for every combination of filters and every row the clause under the binds, in both queries, selects exactly what the present filters and the tenant scope ask for; placeholders are 1 to k; LIMIT's is the next and finds the limit |
| `WhereClauses.ListingQuery` | src/db/queries.rs:1021-1078 | the same for the tenant listing, whose cursor comes first |
| `WhereClauses.ListingIsKeyset` | src/db/queries.rs:1024-1053 | what that clause asks for is the filtered snapshot below, or above, the cursor's key |
| `WhereClauses.AuditQuery` | src/db/queries.rs:1927-2034 | the data query selects what is asked for; the count query, with the cursor condition cut out by its text and the shorter bind list, selects what is asked for regardless of the cursor, placeholders still 1 to k |
| `WhereClauses.MarkFindsCursor` | src/db/queries.rs:1997-2001 | the text test recognises the cursor condition and no other |
| `WhereClauses.StrippedCursor` | src/db/queries.rs:1991-2007 | removing the cursor condition leaves the others numbered without a gap |
| `WhereClauses.StripCursor` | src/db/queries.rs:1997-2001 | the filter keeps exactly the conditions whose text does not mention the cursor |
| `WhereClauses.BuildFilterConditions` | src/handlers/export.rs:160-206 | the export clause under its parameters selects exactly the rows asked for; a date that does not parse is ignored, the end date is inclusive |
| `WhereClauses.NumberedMeans` | src/db/queries.rs:1694-1750 | conditions numbered in push order over values bound in that order mean the filters they came from, whatever is bound after them |
| `WhereClauses.PlaceholdersExact` | src/db/queries.rs:1694-1750 | the placeholders of any list of filters are exactly 1 to k |
| `SecretRotation.StaleValueRejected` | src/secrets.rs:279-347 | a value no longer in Vault from T on is rejected by every instance from T + REFRESH_INTERVAL + ROTATION_GRACE_PERIOD on, if each refreshes within one interval, for any notifications, failures and further rotations |
| `SecretRotation.StalenessFromBoot` | src/secrets.rs:14-78 | the same over a whole run from boot through any history and the replacement in Vault |
| `SecretRotation.BoundIsTight` | src/secrets.rs:230-234 | a run in which the value is still accepted one millisecond before the bound |
| `SecretRotation.AnnouncementsDieOut` | src/secrets.rs:279-366 | once Vault is quiet, the rotations, announcements and notification-driven refreshes of any run together number at most the fleet's measure at that point |
| `SecretRotation.StepMeasure` | src/secrets.rs:279-366 | no step raises the measure and every such step lowers it |
| `SecretRotation.EveryoneAgrees` | src/secrets.rs:297-347 | once every instance has read both secrets from a quiet Vault all agree with it and none holds an outdated value |
| `SecretRotation.NothingMorePublished` | src/secrets.rs:354-366 | from then on, with no announcement due, nothing rotates and nothing is published |
| `SecretRotation.RefreshTakesBoth` | src/secrets.rs:279-352 | an instance woken by timer or notification reads both secrets, takes over what it could read, and then announces if and only if it rotated anything |
| `SecretRotation.DueIffRotated` | src/secrets.rs:354-366 | throughout every run an instance is on its way to an announcement if and only if it has rotated since its last one |
| `SecretRotation.EveryRotationAnnounced` | src/secrets.rs:354-366 | an instance that is waiting again has announced every rotation it made |
| `SecretRotation.AnnouncementDelivers` | src/secrets.rs:354-366 | an announcement leaves one more notification with every instance it reaches, and nothing else |
| `SecretRotation.RotationGrace` | src/secrets.rs:56-78 | after a rotation the new value is current, the one displaced is good for the grace period, and no other is |
| `SecretRotation.VerifyIffListed` | src/secrets.rs:45-78 | `verify` accepts exactly the values `valid_values` lists, the first as current |
| `SecretRotation.SecretCell.constructor` | src/secrets.rs:37-42 | a new secret has no previous value |
| `SecretRotation.SecretCell.RotateTo` | src/secrets.rs:56-59 | the current value becomes the previous one, dated now |
| `SecretRotation.SecretCell.VerifyCandidate` | src/secrets.rs:68-78 | current, previous in its grace period, or neither |
| `TenantKeys.RejectedForever` | src/db/queries.rs:215-441 | over every run, a key once rejected by all tenants is never accepted again unless it is issued again |
| `TenantKeys.DisplacedKeyRejected` | src/db/queries.rs:231-342 | a key displaced at T with grace g is rejected by its tenant from T + g on, whatever follows |
| `TenantKeys.GraceHonoured` | src/db/queries.rs:215-342 | through any events other than a rotation or revocation of that tenant, expiry runs included, the new key is accepted and the displaced one exactly until T + g |
| `TenantKeys.AtMostTwoKeys` | src/db/queries.rs:215-223 | a tenant never accepts more than two keys |
| `TenantKeys.RotationCommits` | src/db/queries.rs:231-342 | a rotation commits exactly for a grace of at most seven days and an active tenant, and then changes this row alone and logs the issuance and, without grace, the revocation |
| `TenantKeys.RevocationFinal` | src/db/queries.rs:346-396 | a revoked previous key is rejected at every time from then on, the current key is untouched, and one entry naming the key is logged |
| `TenantKeys.ExpiryClears` | src/db/queries.rs:399-445 | an expiry run clears exactly the previous keys whose grace has ended, logs each once, and leaves everything else alone |
| `TenantKeys.PruningInvisible` | src/db/queries.rs:399-445 | at the end of any run and later, every tenant accepts exactly the keys it would had no expiry ever run |
| `TenantKeys.AuditReplays` | src/db/queries.rs:264-441 | folding the committed entries from a tenant's initial row rebuilds its hash, previous hash and grace expiry; each issuance starts from the hash issued before it and each revocation names a key then displaced |
| `TenantKeys.TenantTable.LookupApiKey` | src/db/queries.rs:215-223 | finds a tenant that accepts the key, and none only if no tenant does |
| `TenantKeys.TenantTable.RotateTenantApiKey` | src/db/queries.rs:231-342 | row, audit entries and errors of a rotation, all or nothing |
| `TenantKeys.TenantTable.RevokePreviousSecret` | src/db/queries.rs:346-396 | clears and logs the previous key if there is one |
| `TenantKeys.TenantTable.RevokeExpired` | src/db/queries.rs:399-445 | clears and logs exactly the expired previous keys, in any order |
| `AuditRetention.NoRowLost` | src/db/audit.rs:311-457 | in every interleaving of inserts and runs that may fail at any step, with distinct archive keys: every row ever inserted is live or in a stored archive under a record whose half-open range contains its timestamp |
| `AuditRetention.StepSound` | src/db/audit.rs:311-457 | every operation keeps that invariant |
| `AuditRetention.RunSparesDisputed` | src/db/audit.rs:338-352 | from the time a run's query has returned a disputed entity until the run ends, none of its steps removes a row of that entity, whatever else interleaves |
| `AuditRetention.FetchTakesOld` | src/db/audit.rs:317-333 | a fetch that finds anything takes exactly the live rows below the cutoff, and a failing one changes nothing |
| `AuditRetention.DeletedIff` | src/db/audit.rs:338-443 | whatever happens between a run's dispute query and its delete, disputes opened and closed included, a fetched row still live is deleted if and only if the query failed or its entity was not disputed at the query |
| `AuditRetention.DisputedRowDeleted` | src/db/audit.rs:338-443 | two runs that delete a row while its entity is disputed: one whose query fails, and one whose query succeeds before the dispute is opened |
| `AuditRetention.StepLosesIff` | src/db/audit.rs:358-443 | a step from a state that has lost nothing loses a row if and only if it is a write, complete or garbled, without a deleted row that only its key covers, or a delete of a live row that no record covers |
| `AuditRetention.RunLosesIff` | src/db/audit.rs:311-457 | for every interleaving and every choice of keys, no row is lost at any point if and only if every step meets that guard |
| `AuditRetention.FreshKeysAreSafe` | src/db/audit.rs:358-359 | distinct keys meet every guard |
| `AuditRetention.SharedKeyLosesRow` | src/db/audit.rs:358-359 | two runs, one after the other, under one key that lose a row |
| `AuditRetention.RacingWritesLoseRow` | src/db/audit.rs:358-443 | two overlapping runs under one key: nothing is lost until the delete of the first, which loses a row |
| `AuditRetention.AuditTables.RunRetention` | src/db/audit.rs:311-457 | an uninterrupted run is steps of the machine; it deletes only after a confirmed write and a recorded location, row count and range, then exactly the old rows not known to be disputed, and reports both counts |
| `AuditRetention.RetentionLeaves` | src/db/audit.rs:317-443 | its archive has exactly the rows below the cutoff, and of the live ones it leaves those at or above it and, if the query succeeded, those of disputed entities |
| `HashChain.ChainBinds` | src/db/audit.rs:461-492 | two different chains of canonical entries with the same head contain, one in each, two different hash inputs with equal digests |
| `HashChain.NoCollisionNoForgery` | src/db/audit.rs:461-492 | without such a collision heads are equal exactly when the chains are |
| `HashChain.InputInjective` | src/db/audit.rs:481-489 | entry text and previous digest can be told apart in the hash input although nothing separates them |
| `HashChain.ComputeHead` | src/db/audit.rs:461-492 | chaining entry by entry computes the head |
| `Settlements.AuditChains` | src/db/queries.rs:1411-1492 | in every serialised run of racing updates the audit entries of a settlement chain from its first status to its current one, with no no-ops |
| `Settlements.OneWinner` | src/db/queries.rs:1432-1435 | of any number of updates racing from one status, some of which abort, exactly the first to commit is carried out, and all after it are told so and change nothing |
| `Settlements.OriginalAmountKept` | src/db/queries.rs:1437-1457 | an unset original amount means the total is still the creation total; a set one is the creation total for ever |
| `Settlements.UpdateAnchored` | src/db/queries.rs:1437-1457 | one update keeps that, and sets the original amount only on the first adjustment |
| `Settlements.VoidReleases` | src/db/queries.rs:1468-1476 | a void leaves no transaction linked to the settlement and every other link alone |
| `Settlements.UpdateFrame` | src/db/queries.rs:1411-1492 | an update that does not win changes nothing; one that does changes its own row, and links only if it voids |
| `Settlements.RowsReflectWinners` | src/db/queries.rs:1437-1488 | after every run the log is the committed updates in order and every row their sum: the last status, total, reason and reviewer given, and the first total as the original one if it was adjusted |
| `Settlements.SettlementTable.UpdateSettlementStatus` | src/db/queries.rs:1411-1492 | row, links, audit entry and result of one update, or no change at all |
| `Partitions.ParseUndoesPrint` | src/db/cron.rs:89-103 | the parser undoes the printed name for every `i32` year and `u32` month |
| `Partitions.NamesInjective` | src/db/cron.rs:32 | no two months share a name |
| `Partitions.NameShape` | src/db/cron.rs:32 | the name is the year as it is and the month in two digits |
| `Partitions.MonthsTile` | src/db/cron.rs:106-121 | n consecutive months are non-empty half-open ranges, each ending where the next starts |
| `Partitions.MonthsCover` | src/db/cron.rs:16-36 | every instant of the span, across year ends too, lies in exactly one of them |
| `Partitions.MonthLength` | src/db/cron.rs:16-30 | the computed end of a month is the start of the next, leap years included |
| `Partitions.MonthOffsets` | src/db/cron.rs:16-30 | the days before each month, common and leap years |
| `Partitions.UnixEpoch` | src/db/cron.rs:33-34 | where the seconds are counted from |
| `Partitions.CreateMonthPartition` | src/db/cron.rs:5-49 | a bad month is refused, a good one gets its range, and a failing index leaves the partition |
| `Partitions.EnsureFuturePartitions` | src/db/cron.rs:106-121 | the loop creates exactly the consecutive months up to the first failure |

## Left out

- Input and output: Redis, Vault, Postgres, Horizon, gzip and storage appear only as steps that succeed or fail.
- The insides of SHA-256, HMAC and pgcrypto: a digest is an arbitrary function into 64 hex characters, an API key is its stored hash.
- Weak memory orderings: atomics are sequentially consistent, and a debug build's panic on overflow is not modelled (arithmetic wraps as in release builds).
- NonCollidingRefillsKeepRateBound: sufficient, and neither of its two conditions can be dropped; for runs with collisions `ExcessBound` gives what they can add, and whether that breaks the bound depends on how much of it was left unused.
- BackwardKeepsNearestIffLast: no walk theorem is claimed for backward paging, which skips rows at the handler level.
- SearchWalk: for positive limits; a negative one is passed on to the database, which refuses it.
- AtMostTwoKeys: speaks of one row at one time, which covers every state of every run.
- NoRowLost: for distinct archive keys; `RunLosesIff` covers every choice of keys.
- DisplacedKeyRejected: assumes the displaced key is not issued again and the tenant's rows are not edited by other code.
- VoidReleases: speaks of the moment of the update; a later batch may link transactions to the settlement again.
- `reset_all`, and resetting the counters while others record, which the source declares unsafe; the vault-probe bucket, one more plain limiter.
- The text of cursors and its errors, the rejection of unparsable dates and amounts by the handlers, and replica lag headers.
- The `total` that transaction search reports, which counts from the cursor on.
- SQL beyond WHERE clauses, which are syntax trees here; their text is printed only where the code inspects it.
- The export's `id >` literal is modelled as keyset paging, not as a pushed condition.
- Restarting instances, reconnecting to pub/sub and detection-lag metrics in the fleet protocol.
- Generation and trimming of new tenant keys, deactivation and reactivation of tenants, and the difference between application and database clocks.
- A revocation entry for every displaced tenant key: a second graced rotation overwrites the earlier previous hash without one.
- A metadata insert that takes effect although it reports an error.
- Building canonical JSON: entries of the chain are their texts, so an absent value and an explicit null are the same entry.
- Which settlement transitions make sense, settlement batches and their amounts, and bulk updates of transaction status.
- Dates outside the range of the calendar library, index definitions, and detaching and archiving old partitions.
- CSV and JSON rendering, HTTP status tables, configuration, CLI, GraphQL, WebSockets, health checks and profiling.
