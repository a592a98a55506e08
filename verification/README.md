# cryptomarket in Dafny

A model of the parts of the cryptomarket platform that keep state over unbounded runs, and
proofs of what those parts are for.

## What is modelled

**Realtime delivery.** Price events travel from a Redis stream through a consumer group, a hub
and one bounded buffer per client to the table in the browser.

- `Consumer.dfy`: the stream consumer, first one entry at a time (`StreamConsumers`), then as a
  state machine in which the read loop and the claim loop run side by side, handlers fail, acks
  get lost and the process crashes (`ConsumerRuns`). `ConsumerBound.dfy` reaches the bound on
  repeated handling.
- `Client.dfy`, `Hub.dfy`: the bounded buffer with latest-state-wins compaction, and the
  registry of clients; `HubRuns.dfy` whole runs of the hub. `DeliveryRace.dfy` runs the SSE reader
  beside a compaction, one channel operation at a time; `Occurrences.dfy` is about events accepted
  twice in those runs, `Replays.dfy` about replays.
- `SseFraming.dfy`: the frames on the wire, decoded by sections 9.2.5 and 9.2.6 of the HTML
  Living Standard.
- `MarketView.dfy`, `PriceEvents.dfy`: the merge of a snapshot with buffered and live events.

**Provider resilience.** `CircuitBreaker.dfy`, `RateLimitTracker.dfy`, `Retry.dfy`,
`ProviderErrors.dfy` and `Selector.dfy` model the parts; `Fallback.dfy` the orchestrator that
drives them; `FallbackProperties.dfy` one pass over the providers; `FallbackRuns.dfy` whole runs;
`FallbackLoad.dfy` the load on a dead provider and `CoolDown.dfy` the minute after a rate limit, over
whole runs.

**The rest.** `RateLimiter.dfy` is the per-IP token bucket with its background cleanup,
`Ingestor.dfy` the ingest cycle with database and cache, `Freshness.dfy` the freshness summary.

Objects that the source updates in place are classes; each method is proved equal to a function
on values (`Value()` or `View()` before and after), and the theorems are about runs of those
functions.

## How the code is read

- A critical section of a mutex is one atomic step with one clock reading, passed as a parameter.
  Breakers, retries, cool-downs and freshness use integer nanoseconds. The token bucket uses real
  seconds and real tokens. Clocks do not go back where a lemma says so (`Clocked`, `Serial`,
  `Ordered`).
- A provider is an arbitrary outcome per attempt, a context an arbitrary moment of ending with one of
  the two context errors, a random
  draw an arbitrary number in [0, 1), Go's map order an arbitrary permutation.
- A stream entry is either malformed or carries an event id; a market record either passes
  validation or does not.
- `FallbackOrchestrator` calls do not overlap. Breaker operations and consumer loops do.
- A send that waits for room holds the client's mutex and the hub's lock, so `Client` and `Hub` mark
  themselves `stuck` and `hung` and allow no further operation. `DeliveryRace` has the wait itself,
  which ends when the reader takes an event.
- Browser timestamps are strings compared character by character, as in the source.

## What the proofs say about the code

Where the code and its documentation differ, the model follows the code.

- `docs/adr/005-latest-state-delivery-policy.md` says that a slow client cannot block a broadcast.
  It can, exactly when its buffer is full and holds, with the new event, more distinct symbols than
  it has places: `Clients.Client.Send`, `Hubs.Hub.Broadcast`, with runs that do so in
  `Clients.SlowClientBlocks` and `Hubs.SlowClientHangsHub`. With at most as many symbols as places
  it never does: `DeliveryRace.RefillNeverWaits`, `HubRuns.Serve`.
- The same document says the dropped-messages counter counts compaction drops. A broadcast never
  reports a drop, since every registered client is open: `Hubs.Hub.Broadcast`.
- The SSE reader takes events without the lock. A symbol's events can then arrive out of order
  (`DeliveryRace.ReaderCanReorder`). They do so, copies of one event told apart, if and only if the
  reader overtakes a drained event (`Occurrences.OccurrencesInOrderIff`). For events that were sent
  in time order the table ends up right either way (`DeliveryRace.CaughtUpShowsTheSame`).
- Compaction goes by queue position, not by time. An event survives it if and only if it is queued
  somewhere with none of its symbol behind (`Clients.SurvivesIffLastOfSymbol`), so an old event
  replayed behind a live one displaces it (`Clients.ReplayDisplacesLive`) and can leave a stale row
  (`ReplayRuns.ReplayLeavesStaleRow`). Every symbol stays current if and only if no compaction step
  puts an older event in the place of a latest one of which there is no other copy
  (`ReplayRuns.CurrentIffNeverLost`).
- `markSeen` says it drops the oldest half of the dedup set. It drops all of it, the id just added
  included, so that id can be handled again as the next event
  (`ConsumerBound.ClearingIdIsHandledNext`). `ConsumerRuns.SuccessesAccounted` bounds how often an id
  is handled and `ConsumerBound.RepeatBoundIsReached` reaches the bound.
- `degraded` is recomputed only when the active provider changes. It means "not the primary" while
  the eligible set is fixed, and can mislead otherwise: `FallbackRuns.DegradedIffNotPrimary`,
  `FallbackRuns.DegradedCanMislead`, with the exact condition in `FallbackRuns.DegradedRightIff`.
- With `MaxAttempts <= 0` a retry calls nothing and returns neither data nor error; the orchestrator
  takes that for success. One healthy provider suffices if and only if `MaxAttempts >= 1`.
- The limiter's cleanup can be seen by a client if and only if a bucket needs more than ten minutes
  to refill; the window bound fails in the same case: `RateLimiters.CleanupInvisible`,
  `RateLimiters.CleanupVisible`. When buckets refill in time a rejected request costs its client
  nothing; otherwise it can cost later requests, by keeping the entry from the cleanup:
  `RateLimiters.RejectedIsFreeInEveryRun`, `RateLimiters.RejectionNotFree`.
- Events of one symbol that tie for the greatest timestamp, above the snapshot's, must look alike:
  exactly then the rows do not depend on the order of events (`MarketViews.ConfluentIffLatestAlike`).
  An empty timestamp rejects nothing.
- A refetch drops the row of a symbol that the snapshot lacks but keeps its timestamp, so the same
  event delivered again does not bring the row back: `MarketViews.RefetchThenRedelivery`,
  `MarketViews.RefetchLosesRow`.
- A batch is inserted before its values are cached one by one. A read in between gets the older
  cached value although no write failed: `Ingestion.StaleBetweenWrites`, with the exact condition in
  `Ingestion.ServedFromTable`.

## Model

| member | source | states |
|---|---|---|
| `CircuitBreakers.CircuitBreaker.TransitionTo` | internal/resilience/circuitbreaker.go:196-218 | entering a state resets exactly the counters that state counts with, and opening stamps the time |
| `CircuitBreakers.CircuitBreaker.State` | internal/resilience/circuitbreaker.go:108-123 | reading the state moves an open breaker to half-open once its open period is over, and changes nothing else |
| `CircuitBreakers.CircuitBreaker.RecordSuccess` | internal/resilience/circuitbreaker.go:156-179 | a success clears the failures of a closed breaker or counts towards closing a half-open one |
| `CircuitBreakers.CircuitBreaker.RecordFailure` | internal/resilience/circuitbreaker.go:163-194 | a failure counts towards opening, and reopens a half-open breaker |
| `CircuitBreakers.CircuitBreaker.Execute` | internal/resilience/circuitbreaker.go:126-153 | a call is refused if and only if the breaker is still open; otherwise the function's own outcome is returned and recorded |
| `CircuitBreakers.StateIsFunctionOfTrace` | internal/resilience/circuitbreaker.go:116-218 | for every interleaving of reads, successes and failures, state and counters are those of a counter-free description of the trace: trailing failures below max(1,F) when closed, successes since entry below max(1,S) when half-open, failures equal to max(1,F) when not closed |
| `CircuitBreakers.PhaseLasts` | internal/resilience/circuitbreaker.go:116-218 | at every moment since a phase began the trace was in that phase |
| `CircuitBreakers.ClosingNeedsProbes` | internal/resilience/circuitbreaker.go:116-218 | a circuit that closed again was open throughout since a failure, then, at least the open period later, half-open throughout with exactly max(1,S) successes and no failure, and nothing in between |
| `CircuitBreakers.HalfOpenFollowsOpen` | internal/resilience/circuitbreaker.go:116-218 | a half-open phase follows an open one: from the failure that opened the circuit until the read that made it half-open, at least the open period later, it was open throughout |
| `CircuitBreakers.AdmittedIsPaidFor` | internal/resilience/circuitbreaker.go:116-218 | from any state, every call a dead provider still gets beyond the remaining failures costs a full open period |
| `CircuitBreakers.DeadProviderBoundedLoad` | internal/resilience/circuitbreaker.go:116-218 | a provider that always fails is called at most max(1,F) + floor(T/D) times within T, however many state reads are mixed in |
| `CircuitBreakers.DeadProviderBoundIsTight` | internal/resilience/circuitbreaker.go:116-218 | for every configuration and horizon some schedule reaches that bound |
| `CircuitBreakers.Manager.Get` | internal/resilience/circuitbreaker.go:248-269 | one breaker per name, created on first use, the same object ever after; other names are untouched |
| `CircuitBreakers.Manager.States` | internal/resilience/circuitbreaker.go:271-281 | the states of all breakers, each moved to half-open if its open period is over |
| `Retries.Delay` | internal/resilience/retry.go:91-104 | every delay lies between a millisecond and the capped exponential backoff, whatever the draw |
| `Retries.DelayIsShare` | internal/resilience/retry.go:91-104 | every delay is the drawn share of the capped backoff, less than a nanosecond off, or a millisecond when that is more |
| `Retries.BackoffDoubles` | internal/resilience/retry.go:91-96 | the backoff starts at Base and doubles with each attempt |
| `Retries.DecidedByFirstStop` | internal/resilience/retry.go:107-143 | result and number of calls are decided by the first attempt that succeeds, is not retryable, is the last, or meets an ended context |
| `Retries.LiveContextAnswer` | internal/resilience/retry.go:107-143 | without cancellation the answer is that of the first attempt that succeeds, is not retryable, or is number MaxAttempts, and no call follows it |
| `Retries.EachSleepBounded` | internal/resilience/retry.go:91-104 | each sleep of a call is its own draw's share of its own capped backoff, less than a nanosecond off, and at least a millisecond |
| `Retries.TotalSleepBounded` | internal/resilience/retry.go:91-143 | n sleeps together stay within Base * (2^n - 1) |
| `Retries.TotalSleepWithinConfig` | internal/resilience/retry.go:91-143 | any number of backoffs below MaxAttempts sleeps at most Base * (2^(MaxAttempts-1) - 1) in all |
| `Retries.RetryWithResult` | internal/resilience/retry.go:107-143 | the call gives the specified result and number of calls; it begins exactly one backoff after each attempt before the first that stops, and one more if that one failed retryably, was not the last and its sleep was cut short by the context; none after a success, a last attempt or one that is not retryable; in all at most Base * (2^(MaxAttempts-1) - 1) |
| `RateLimitTrackers.RateLimitTracker.RecordRateLimit` | internal/resilience/ratelimit.go:38-53 | a 429 starts the provider's cool-down anew and counts it; others are untouched |
| `RateLimitTrackers.RateLimitTracker.ShouldWait` | internal/resilience/ratelimit.go:56-75 | waits if and only if the provider cools down, and the remaining time is exactly the moment it stops to |
| `ProviderErrors.RateLimitedIff` | internal/provider/provider.go:45-52 | an error is a rate limit if and only if the outermost provider error in its chain, however deep it is wrapped, is flagged as one or has status 429 |
| `ProviderErrors.RetriedIff` | internal/provider/fallback.go:165-167 | however often an error is wrapped, it is retried if and only if it is a deadline, or its provider error is transient by flag, status or cause and not permanent by flag or status |
| `ProviderErrors.RetriedByStatus` | internal/provider/provider.go:54-94 | without flags exactly 429 and 500 to 599 are retried, wrapped or not; a wrapped 503 is, a wrapped 404 is not |
| `Selectors.EnabledMembers` | internal/provider/selector.go:29-40 | eligible are exactly the configured providers that are not disabled |
| `Selectors.EnabledDistinct` | internal/provider/selector.go:29-40 | distinct names stay distinct |
| `Selectors.EnabledKeepsOrder` | internal/provider/selector.go:29-40 | eligible providers keep their priority order |
| `Selectors.Selector.Eligible` | internal/provider/selector.go:29-40 | the loop returns the eligible providers |
| `Fallback.FallbackOrchestrator.SetActiveProvider` | internal/provider/fallback.go:183-208 | a switch stamps the time and recomputes degraded, which is true also when no provider is eligible; staying changes nothing |
| `Fallback.FallbackOrchestrator.CheckProvider` | internal/provider/fallback.go:100-114 | a provider is skipped if and only if its circuit is open or it cools down |
| `Fallback.FallbackOrchestrator.RecordVisitFailed` | internal/provider/fallback.go:121-127 | one breaker failure, and a cool-down of a minute if the error is a rate limit; what that means over runs is `CoolDowns.CalledIff` |
| `Fallback.FallbackOrchestrator.RecordVisitServed` | internal/provider/fallback.go:141-145 | one breaker success, and the provider becomes active |
| `Fallback.FallbackOrchestrator.VisitProvider` | internal/provider/fallback.go:97-148 | one round of the loop over shared breakers, cool-downs and flags is the visit on values |
| `Fallback.FallbackOrchestrator.FetchMarketData` | internal/provider/fallback.go:86-160 | the whole loop, in place, is the pass on values over the eligible providers |
| `FallbackProperties.FetchedByFirstStop` | internal/provider/fallback.go:163-180 | a visit hands on the data of the attempt that decides, or its error wrapped once, or the context's error wrapped twice |
| `FallbackProperties.VisitIsLocal` | internal/provider/fallback.go:97-148 | a visit changes at most the visited provider's breaker, by at most one outcome, and its cool-down; at most MaxAttempts calls are made |
| `FallbackProperties.VisitOutcome` | internal/provider/fallback.go:97-148 | a visit serves if and only if the provider is admitted and its retried fetch does not fail; only serving visits change active, degraded and the time of the last switch, which is then that of the visit |
| `FallbackProperties.PassFindsFirst` | internal/provider/fallback.go:86-180 | from any provider on, the result is that of the first one that is not open, not cooling down and whose retried fetch succeeds; if it was not active, the switch bears the time of its visit and degraded says whether it is not the primary; each earlier one failed or was skipped, with one recorded outcome each; later ones are untouched; with none serving it is the error of the last one tried; calls total at most the number of providers times MaxAttempts |
| `FallbackProperties.FetchIsFirstSuccess` | internal/provider/fallback.go:86-180 | a fetch over configured and disabled providers answers with the first in priority order that is enabled, admitted and succeeds, every one configured before it being disabled or passed over; with the error of the last one tried when none succeeds; and that none is eligible exactly when all are disabled |
| `FallbackRuns.HealthyPass` | internal/provider/fallback.go:86-160 | a pass that reaches a fit and healthy provider gets data if and only if MaxAttempts >= 1, and leaves it fit |
| `FallbackRuns.OneHealthyProviderSuffices` | internal/provider/fallback.go:86-160 | in every run in which one enabled, uniquely named provider always answers, every fetch returns data if and only if MaxAttempts >= 1, whatever the others, resets, state reads and other providers' switches do; its breaker stays closed without failures and it never cools down |
| `FallbackRuns.DegradedMeaning` | internal/provider/fallback.go:183-208 | over every run, degraded holds if and only if the active provider is not the one that was primary when it became active |
| `FallbackRuns.DegradedIffNotPrimary` | internal/provider/fallback.go:183-208 | with a fixed eligible set, degraded holds throughout the run if and only if the active provider is not the primary |
| `FallbackRuns.DegradedRightIff` | internal/provider/fallback.go:183-208 | over every run, degraded is right about the primary of the moment if and only if that one and the primary at the last switch agree on being active |
| `FallbackRuns.DegradedCanMislead` | internal/provider/fallback.go:187-201 | with a changing eligible set the flag can stay false while a fallback is active |
| `FallbackRuns.RunKeeps` | internal/provider/fallback.go:86-160 | in every run an open breaker was opened by its last failure, half-open ones still lack successes, and every cool-down is a minute |
| `FallbackRuns.PrimaryServes` | internal/provider/fallback.go:97-148 | a rested and healthy primary is served from at once and alone, and one more probe is counted |
| `FallbackRuns.PrimaryRecovers` | internal/provider/fallback.go:100-147 | once the primary answers, every fetch at least OpenDuration after its last failure and a minute after its last 429 is served by it; degraded is cleared by the first; after max(1,S) of them its breaker is closed; state reads and resets in between do not matter |
| `FallbackRuns.RecoversInEveryRun` | internal/provider/fallback.go:86-208 | the same recovery after every past of a new orchestrator with a fixed eligible set |
| `FallbackLoad.VisitProject` | internal/provider/fallback.go:97-148 | a visit to a failing provider is one serial operation on its breaker, and calls it, at most MaxAttempts times, only when admitted and not cooling down |
| `FallbackLoad.RunProject` | internal/provider/fallback.go:86-160 | over every run the breaker of a failing provider is that of its projected operations, with at most MaxAttempts calls for each admitted one |
| `FallbackLoad.DeadProviderInEveryRun` | internal/provider/fallback.go:86-160 | over every run of the whole stack a provider that always fails is called at most MaxAttempts * (max(1,F) + floor(T/D)) times within T, whatever other providers, cool-downs, switches and state reads do |
| `CoolDowns.CalledIff` | internal/provider/fallback.go:97-148 | after every run, a visit calls its provider if and only if an attempt is allowed, the context lives, the circuit is not open, and 60 seconds have passed since the last fetch that called the provider and was decided by a rate limit, unless reset since |
| `CoolDowns.LimitedIsLeftAlone` | internal/provider/fallback.go:108-127 | after a fetch whose deciding attempt failed with status 429, wrapped to any depth, no visit in any run that follows calls the provider within 60 seconds unless it is reset, whatever other fetches, switches and state reads do |
| `CoolDowns.RunKeepsLimit` | internal/provider/fallback.go:97-148 | over every run the cool-down on record is that of the last fetch that was decided by a rate limit, as of the last reset |
| `RateLimiters.RateLimiter.Allow` | internal/api/middleware.go:158-189 | one request on the shared map is one request on the client's bucket, other clients untouched; which requests are admitted is `RateLimiters.LimiterAdmitsIffWindowsAllow` |
| `RateLimiters.RateLimiter.Cleanup` | internal/api/middleware.go:142-155 | the deleting loop removes exactly the entries unseen for over ten minutes |
| `RateLimiters.CleanupInvisible` | internal/api/middleware.go:142-186 | when a bucket refills within ten minutes, the answers to a client over every run equal those of a bucket of its own that is never deleted |
| `RateLimiters.CleanupVisible` | internal/api/middleware.go:142-186 | otherwise, for every such policy, some run tells the two apart and admits more than burst + rate * W |
| `RateLimiters.OthersDoNotMatter` | internal/api/middleware.go:158-189 | for every policy and run, leaving out the requests of other clients changes no answer |
| `RateLimiters.WindowBound` | internal/api/middleware.go:161-186 | in every window of length W a bucket admits at most burst + rate * W requests |
| `RateLimiters.LimiterWindowBound` | internal/api/middleware.go:142-186 | the same bound for the shared limiter with cleanup, over every run |
| `RateLimiters.AdmittedIffWindowsAllow` | internal/api/middleware.go:161-186 | a request is admitted if and only if, for every earlier request, those admitted since it and this one are at most burst + rate * the seconds between: the bucket admits all that the window bound allows |
| `RateLimiters.LimiterAdmitsIffWindowsAllow` | internal/api/middleware.go:142-186 | the same for the shared limiter with cleanup, over every run, when a bucket refills within ten minutes |
| `RateLimiters.RejectedIsFree` | internal/api/middleware.go:161-186 | for every policy and any bucket, leaving out a rejected request changes no other answer |
| `RateLimiters.RejectedIsFreeInEveryRun` | internal/api/middleware.go:142-186 | the same for the shared limiter with cleanup, over every run, when a bucket refills within ten minutes |
| `RateLimiters.RejectionNotFree` | internal/api/middleware.go:142-186 | otherwise, for every such policy, some run admits fewer requests than without a rejected one, which kept the entry from the cleanup |
| `RateLimiters.SpacedNeverRejected` | internal/api/middleware.go:161-186 | a client whose requests are at least 1/rate apart is never rejected, for burst >= 1, whatever cleanup and others do |
| `SseFraming.FrameThen` | internal/subscriber/client.go:175-185 | a clean frame in front of any text decodes to its message and leaves the rest alone |
| `SseFraming.HeartbeatThen` | internal/subscriber/client.go:156-161 | a heartbeat in front of any text is invisible |
| `SseFraming.RoundTrip` | internal/subscriber/client.go:156-185 | decoding any mix of frames and heartbeats yields exactly the written events, in order, with type, id and data |
| `SseFraming.RoundTripIffClean` | internal/subscriber/client.go:156-185 | for any mix of frames and heartbeats, the written events arrive if and only if every one has fields free of line ends, an id free of NUL and a type that is not empty |
| `SseFraming.MultiLineDataIsLost` | internal/subscriber/client.go:181-181 | data with a line feed is not among what its frame decodes to |
| `SseFraming.FrameApart` | internal/subscriber/client.go:175-185 | a frame with a clean type and id, whatever its data, is decoded apart from what follows, to at least one message |
| `PriceEvents.AtMostTotal` | frontend/hooks/useMarketData.ts:48-48 | the timestamp comparison is total |
| `PriceEvents.AtMostAntisymmetric` | frontend/hooks/useMarketData.ts:48-48 | two timestamps below each other are equal |
| `PriceEvents.AtMostTransitive` | frontend/hooks/useMarketData.ts:48-48 | the timestamp comparison is transitive |
| `PriceEvents.AtMostIff` | frontend/hooks/useMarketData.ts:48-48 | one timestamp is at most another if and only if it is a prefix of it or has the smaller character where they first differ |
| `PriceEvents.AtMostIsNumeric` | frontend/hooks/useMarketData.ts:48-48 | on digits of equal length the comparison is that of the numbers read |
| `MarketViews.MarketView.MergeEvent` | frontend/hooks/useMarketData.ts:44-76 | an event not newer than its symbol's timestamp changes nothing; a newer one replaces or appends the one row of its symbol; what is then shown is `MarketViews.GreatestStampShows` and `MarketViews.SnapshotRowStays` |
| `MarketViews.MarketView.HandleEvent` | frontend/hooks/useMarketData.ts:79-89 | events wait in order until the first load is over |
| `MarketViews.MarketView.Load` | frontend/hooks/useMarketData.ts:109-124 | a load takes rows and timestamps from the snapshot and merges what waited, in order |
| `MarketViews.MarketView.LoadFailed` | frontend/hooks/useMarketData.ts:134-137 | a failed load opens the table to events and leaves the waiting ones waiting |
| `MarketViews.SessionIsMerge` | frontend/hooks/useMarketData.ts:79-124 | how events split into early and late ones does not matter |
| `MarketViews.MergeShows` | frontend/hooks/useMarketData.ts:44-76 | after any events, ties included, there is one row per symbol, showing one of the events with the greatest timestamp if that is above the snapshot's, else the snapshot row |
| `MarketViews.SessionShowsLatest` | frontend/hooks/useMarketData.ts:44-124 | in a session with one load, whatever the order, duplicates and late replays, every event with the greatest timestamp gives the row shown, provided those newer than the snapshot look alike |
| `MarketViews.GreatestStampShows` | frontend/hooks/useMarketData.ts:44-124 | in every session, whatever the order, the repeats and the split, an event whose timestamp follows that of every other one of its symbol and of the snapshot's row is shown field by field: its prices, change and provider, the snapshot's name or else the symbol, its time of observation or else of publication |
| `MarketViews.GreaterDigitShows` | frontend/hooks/useMarketData.ts:44-76 | of two events whose timestamps first differ in one character, the one with the greater character is shown in either order |
| `MarketViews.SnapshotRowStays` | frontend/hooks/useMarketData.ts:44-124 | a dated snapshot row that no event of its symbol is later than stays as it is |
| `MarketViews.RowsKeepTheirPlaces` | frontend/hooks/useMarketData.ts:54-124 | in every session the rows of the snapshot keep their places and new symbols follow in the order of their first event |
| `MarketViews.SessionsConfluent` | frontend/hooks/useMarketData.ts:44-124 | two sessions over the same events, however ordered, repeated and split, show the same rows under that condition |
| `MarketViews.AnyLatestCanShow` | frontend/hooks/useMarketData.ts:44-76 | any event with the greatest timestamp, if newer than the snapshot, is shown by some order of the same events |
| `MarketViews.ConfluentIffLatestAlike` | frontend/hooks/useMarketData.ts:44-124 | for every snapshot and every events, all orders and repeats show the same rows if and only if, for each symbol, the latest events that are newer than the snapshot look alike |
| `MarketViews.PairCommutesIffTiesAgree` | frontend/hooks/useMarketData.ts:44-76 | two events commute if and only if they do not tie with different contents |
| `MarketViews.TieLosesOne` | frontend/hooks/useMarketData.ts:47-52 | of two tying events the first is shown, or the second when the timestamp is empty |
| `MarketViews.LatestSuffices` | frontend/hooks/useMarketData.ts:44-76 | a table fed with fewer events shows the same as long as each symbol's latest is among them and the latest ones newer than the snapshot look alike |
| `MarketViews.RefetchThenRedelivery` | frontend/hooks/useMarketData.ts:111-116 | after a refetch, redelivering the event last applied shows a row if and only if the snapshot carries the symbol |
| `MarketViews.RefetchLosesRow` | frontend/hooks/useMarketData.ts:79-124 | a run from an empty table, a load, an event, a load without its symbol and the same event again, after which the row is gone |
| `Clients.Client.Send` | internal/subscriber/client.go:67-101 | refused if and only if closed; waits for room if and only if the buffer is full and the distinct symbols with the new event exceed it; otherwise accepted, and the buffer goes on refining an unbounded queue: per symbol a subsequence of what was accepted, ending in its last event |
| `Clients.Client.Drain` | internal/subscriber/client.go:85-89 | closing and ranging over the channel leaves the last event per symbol |
| `Clients.Client.Refill` | internal/subscriber/client.go:94-97 | refilling in any map order finds no room if and only if there are more symbols than places |
| `Clients.Client.SendReplay` | internal/subscriber/client.go:104-115 | a replayed event goes behind the queue, or is dropped when the client is closed or full |
| `Clients.Client.Deliver` | internal/subscriber/client.go:162-170 | events leave in queue order and the refinement holds on |
| `Clients.Client.Close` | internal/subscriber/client.go:117-124 | the done channel is closed once, however often this is called |
| `Clients.RefinesAppend` | internal/subscriber/client.go:75-81 | queueing behind keeps the refinement of an unbounded queue |
| `Clients.RefinesCompact` | internal/subscriber/client.go:83-100 | compaction in any order keeps the refinement |
| `Clients.FewSymbolsNeverBlock` | internal/subscriber/client.go:94-97 | while all symbols fit in the buffer, compaction always finds room |
| `Clients.SurvivesIffLastOfSymbol` | internal/subscriber/client.go:83-98 | for every queue, repeated events included, an event survives compaction if and only if it is queued somewhere with no event of its symbol behind it, whichever is newer |
| `Clients.SlowClientBlocks` | internal/subscriber/client.go:94-97 | a run of a new client with one place in which the second symbol keeps the sender waiting |
| `Clients.ReplayDisplacesLive` | internal/subscriber/client.go:67-115 | a run of a new client, a live event, an older one replayed behind it and a third one to a full buffer, after which the live event is neither queued nor delivered |
| `Hubs.DecimalParses` | internal/subscriber/hub.go:143-157 | the decimal form is read back exactly |
| `Hubs.ClientIdReads` | internal/subscriber/hub.go:139-157 | a client id is the word client, a dash and a numeral that reads as the number |
| `Hubs.ClientIdInjective` | internal/subscriber/hub.go:139-157 | different numbers give different client ids |
| `Hubs.Itoa` | internal/subscriber/hub.go:143-157 | the digit loop and the in-place reversal give the decimal form, and an empty string for negative numbers |
| `Hubs.Hub.Subscribe` | internal/subscriber/hub.go:64-86 | refused if and only if the hub is full; otherwise a new client under an id no live client has, and the hub's invariant holds on: at most MaxClients entries, keys are ids, registered clients are open, removed ones closed once |
| `Hubs.Hub.Unsubscribe` | internal/subscriber/hub.go:89-101 | a client of this hub is off the map and closed exactly once, also when called again; a foreign one without a registered id changes nothing; a foreign one that carries a registered id takes that client off the map and leaves it open |
| `Hubs.Hub.Retire` | internal/subscriber/hub.go:93-95 | closing a client of this hub and deleting its id keeps the invariant |
| `Hubs.Hub.SendTo` | internal/subscriber/hub.go:108-114 | a registered client takes the event or waits for room; it never refuses |
| `Hubs.Hub.Broadcast` | internal/subscriber/hub.go:104-115 | hangs if and only if some client's send would wait; otherwise every client accepts exactly this event and no drop is reported |
| `Hubs.SlowClientHangsHub` | internal/subscriber/hub.go:104-115 | a run of a new hub with one silent client in which the second symbol hangs the broadcast |
| `Hubs.Hub.CloseAll` | internal/subscriber/hub.go:125-137 | the hub is empty and every client ever issued is closed once |
| `HubRuns.NeverWaits` | internal/subscriber/client.go:67-101 | while a client has only accepted events of as many symbols as it has places, no send of such a symbol waits |
| `HubRuns.Serve` | internal/subscriber/hub.go:64-137 | over every run of a hub, clients joining, leaving, reading and getting replays in any order, no broadcast hangs as long as the symbols fit in the buffer |
| `DeliveryRace.NothingLost` | internal/subscriber/client.go:67-101 | in every interleaving of sends, compactions and unlocked reads, no event is invented and each symbol's last accepted event is delivered or last in line |
| `DeliveryRace.RefillNeverWaits` | internal/subscriber/client.go:94-97 | while the symbols fit in the buffer, every refill can go on at once, whatever the reader does |
| `DeliveryRace.WaitingRefill` | internal/subscriber/client.go:94-97 | a refill without room waits for the reader alone: a read lets it go on, and once the reader has ended nothing can, with the mutex held |
| `DeliveryRace.LastIsLatest` | internal/subscriber/client.go:64-101 | with timestamps in order the last accepted event of a symbol is its latest |
| `DeliveryRace.DeliveredKeepsLatest` | internal/subscriber/client.go:64-101 | delivered events that hold each symbol's last accepted one hold its latest |
| `DeliveryRace.CaughtUpShowsTheSame` | internal/subscriber/client.go:67-101 | a slow client that has caught up shows the rows of one with an unbounded buffer, in every interleaving |
| `DeliveryRace.OrderKeptUnlessOvertaken` | internal/subscriber/client.go:85-97 | as long as the reader overtakes no drained event, a symbol's events arrive in order, the last included |
| `DeliveryRace.OvertakingReorders` | internal/subscriber/client.go:85-97 | a read that overtakes a drained event of its symbol, neither accepted twice, breaks the order |
| `DeliveryRace.OrderKeptIffNeverOvertaken` | internal/subscriber/client.go:67-101 | for every run in which no event accepted twice overtakes or is overtaken, every symbol's events are in order at every moment if and only if the reader never overtakes a drained event |
| `Occurrences.NumberedRun` | internal/subscriber/client.go:67-115 | numbering the accepted events changes nothing else in any run |
| `Occurrences.OccurrencesInOrderIff` | internal/subscriber/client.go:67-115 | for every run, events repeated at will, the occurrences of every symbol's events are in order at every moment if and only if the reader never overtakes a drained event |
| `DeliveryRace.ReaderCanReorder` | internal/subscriber/client.go:162-162 | otherwise two events of one symbol can arrive in the wrong order |
| `ReplayRuns.UnlostIsCurrent` | internal/subscriber/client.go:67-115 | in every interleaving of live events, replays, compactions and unlocked reads in which no compaction step loses a symbol's latest event, each symbol's latest event is delivered or in line |
| `ReplayRuns.UnlostShowsTheSame` | internal/subscriber/client.go:67-115 | a client that has caught up after such a run shows the rows of one with an unbounded buffer, in whatever order events came |
| `ReplayRuns.LosingLeavesNone` | internal/subscriber/client.go:85-92 | a step that puts an older event in the place of a latest one, with no other copy delivered or in line, leaves no latest event of the symbol |
| `ReplayRuns.CurrentIffNeverLost` | internal/subscriber/client.go:67-115 | for every run, live events and replays repeated at will, every symbol is current at every moment if and only if no compaction step loses a symbol's latest event |
| `ReplayRuns.ReplayLeavesStaleRow` | internal/subscriber/client.go:67-115 | a run in which a replay leaves a caught-up table with the old row |
| `StreamConsumers.Consumer.MarkSeen` | internal/stream/consumer.go:357-365 | adds the id, and clears the whole set when it grows past 10000 |
| `StreamConsumers.Consumer.Ack` | internal/stream/consumer.go:344-348 | a successful ack takes the entry off the pending list, a lost one does not |
| `StreamConsumers.Consumer.ProcessEntry` | internal/stream/consumer.go:175-215 | malformed and duplicate entries are acked unhandled; a failed handler leaves the entry pending and unmarked; a success is marked and acked |
| `ConsumerRuns.InvRun` | internal/stream/consumer.go:102-149 | in every run, entries being worked on are delivered ones, marked ids were handled, and acked entries were malformed or handled |
| `ConsumerRuns.AtLeastOnce` | internal/stream/consumer.go:175-348 | in every interleaving of both loops, handler failures, lost acks and crashes, a delivered entry is pending if and only if not acked, and an acked one was malformed or its event id was handled |
| `ConsumerRuns.LoopsCanGoOn` | internal/stream/consumer.go:175-215 | no loop is ever stuck in the middle of an entry |
| `ConsumerRuns.UninterruptedIsProcessEntry` | internal/stream/consumer.go:175-215 | the steps of one loop, taken in a row, are the method |
| `ConsumerRuns.MarkedOncePerLoop` | internal/stream/consumer.go:189-365 | between two clears each loop marks an id at most once, and the set never exceeds 10000 |
| `ConsumerRuns.SeenSinceLastClear` | internal/stream/consumer.go:350-365 | over every run the set holds exactly the ids that either loop marked since the last clear |
| `ConsumerRuns.SuccessesAccounted` | internal/stream/consumer.go:189-365 | in a run without crashes whose entries are processed one at a time, completed successes are 10001 per clear plus the set's size, and an id is handled at most once per clear and once more |
| `ConsumerBound.RepeatBoundIsReached` | internal/stream/consumer.go:357-365 | for every id and every number of clears some one-at-a-time run handles the id once more than that |
| `ConsumerBound.ClearingIdIsHandledNext` | internal/stream/consumer.go:357-365 | for every id some one-at-a-time run clears the set with the mark of that id and handles it again as the very next event |
| `Freshness.StatesPartition` | internal/market/freshness.go:83-98 | fresh, delayed and stale symbols make up all symbols, and none is unknown |
| `Freshness.StateMeans` | internal/market/freshness.go:83-98 | a symbol is fresh up to the fresh threshold, stale above both thresholds, unknown if and only if never updated, also with thresholds in the wrong order |
| `Freshness.FreshnessTracker.Tally` | internal/market/freshness.go:133-154 | the loop counts the symbols in each state and finds the oldest age, in any map order |
| `Freshness.FreshnessTracker.Summarize` | internal/market/freshness.go:124-176 | the counts are exact and sum to the total, fresh and stale ones told by age and threshold, the overall state is the worst of any symbol, the oldest age is the maximum |
| `Freshness.FreshnessTracker.ComplianceRatio` | internal/market/freshness.go:202-208 | the share of fresh symbols, in [0, 1], and 1 for an empty tracker |
| `Freshness.WorstByCounts` | internal/market/freshness.go:156-173 | deciding by the counts gives the worst state |
| `Freshness.NeverImproves` | internal/market/freshness.go:83-98 | without updates no symbol's severity improves as time passes |
| `Freshness.OverallNeverImproves` | internal/market/freshness.go:83-173 | nor does the overall severity, and no symbol becomes fresh again |
| `Ingestion.Ingestor.Find` | internal/worker/ingestor.go:199-206 | the first coin with the symbol, if any, as `Ingestion.FindsFirst` says |
| `Ingestion.Ingestor.Match` | internal/worker/ingestor.go:120-156 | the validation loop keeps the valid records of known coins, in order |
| `Ingestion.Ingestor.SpreadAll` | internal/worker/ingestor.go:172-184 | the last loop caches and publishes each stored value, and a failure of either stops nothing; what goes out is `Ingestion.SetAllPublishes` |
| `Ingestion.Ingestor.RunOnce` | internal/worker/ingestor.go:71-197 | the cycle in place is the cycle on values; what it stores, publishes and logs is `Ingestion.CycleRecords` |
| `Ingestion.MatchedOnlyValid` | internal/worker/ingestor.go:120-156 | nothing is stored but the quotes of valid records, each under a known coin of its symbol |
| `Ingestion.MatchedMissesNone` | internal/worker/ingestor.go:120-156 | every valid record of a known coin is stored |
| `Ingestion.MatchedDistinct` | internal/worker/ingestor.go:120-156 | with one record per symbol there is one item per coin |
| `Ingestion.FindsFirst` | internal/worker/ingestor.go:199-206 | of several coins with the symbol the first one is taken |
| `Ingestion.MatchedInOrder` | internal/worker/ingestor.go:120-156 | records are matched one by one, in the order of the response |
| `Ingestion.SetAllPublishes` | internal/worker/ingestor.go:172-184 | the stream grows by one value for each item whose write publishes, in order, with the coin's symbol, name, quote and time, whether or not its cache write took |
| `Ingestion.CycleRecords` | internal/worker/ingestor.go:71-247 | a cycle is done if and only if it gets coins, a valid record of a known coin and a table that takes it; then and only then its rows are stored and its events published, one per matched record, in order; the log gets its success or failure, and nothing when there are no coins |
| `Ingestion.RunRecords` | internal/worker/ingestor.go:71-247 | over all runs table, stream and log are the rows, events and outcomes of the cycles, in order |
| `Ingestion.CycleAgrees` | internal/worker/ingestor.go:71-197 | at every moment of a cycle, whatever fails in it, a cached value is a stored snapshot of its coin, and the last one if and only if the symbol's last cache write took effect and none is still to come |
| `Ingestion.CacheAgrees` | internal/worker/ingestor.go:120-184 | the same after every run of whole cycles |
| `Ingestion.CacheAgreesAlways` | internal/worker/ingestor.go:120-184 | the same after every run and at every moment of the cycle under way |
| `Ingestion.PublishedIsStored` | internal/worker/ingestor.go:163-184 | over all runs an event on the stream tells of a snapshot in the table |
| `Ingestion.DatedRun` | internal/worker/ingestor.go:71-197 | over all runs each coin's snapshots are stored at increasing times |
| `Ingestion.LastIsNewest` | internal/repository/snapshot_repo.go:55-68 | the last stored snapshot of a coin is the one the newest-first query finds |
| `Ingestion.ServedFromTable` | internal/api/handlers.go:170-204 | at every moment of every run, what the API serves for a coin is a stored snapshot of it, and the newest one if and only if it comes from the table, or the symbol's last cache write took effect and none is still to come; else it was cached under five minutes ago; a cache that cannot be read falls through to the table, and only a table that cannot be read fails the request |
| `Ingestion.StaleBetweenWrites` | internal/worker/ingestor.go:163-184 | a run in which no write fails and a read between the insert and the cache write gets the value before |

## Left out

- HTTP adapters, JSON encoding and SQL text: a provider is an arbitrary outcome, a payload a verdict, the database an atomic log.
- The Redis client, stream trimming, claim idle time and batch sizes, and the replay limit of 50 entries: entries stay in the log, and either loop may take any batch at any moment.
- Metrics and logging, except where a count is the subject; the sync log keeps only success or failure.
- ParseRetryAfter: the orchestrator uses only the default of a minute.
- Retry without a result: the same loop as RetryWithResult.
- Overlapping FetchMarketData calls: the orchestrator's runs are serial.
- Authentication, headers, compression, routing, React rendering, stream timers and the last-updated display: thin wrappers and user interface.
- AnomalyDetector, feature flags, configuration, scheduler, migrations, Python tooling, scripts and deployment: easy members or I/O.
- Floating-point rounding and the scale of NUMERIC columns: reals and exact values instead.
- Wrap-around of 64-bit ids and durations: integers are unbounded; an id would have to pass 2^63.
- The field latestPerSymbol of a client: it is written and never read.
- Constructors and one-line setters of the classes have contracts and no row of their own.
- Rendezvous on a buffer of size 0: a send to such a client always waits in the model, also when a reader is ready.
- A negative limiter rate: tokens would be lost over time; rate is at least 0 in the limiter's lemmas.
- Negative window bounds for a negative burst: WindowBound and LimiterWindowBound take burst >= 0; with burst < 1 nothing is admitted.
- Clients.Client.Send: a waiting send ends the object's history here; that it goes on once the reader makes room is `DeliveryRace.WaitingRefill`.
- Hubs.Hub.Broadcast: likewise for the broadcast that the waiting send belongs to.
- OrderKeptIffNeverOvertaken: compares events, not occurrences, and so leaves out pairs accepted twice; `Occurrences.OccurrencesInOrderIff` covers them.
- OvertakingReorders: likewise about events of which neither was accepted twice.
- ServedFromTable, PublishedIsStored and RunRecords: take cycles that do not overlap, one record per symbol in a response, and strictly increasing cycle times.
