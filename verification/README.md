# AudioSilo server: a verified model

A model, in Dafny, of the parts of the server that keep state under concurrency or encode bytes,
with their guarantees proved for every input, run and interleaving. Check it with
`dafny verify dfyconfig.toml`.

What the server does by updating objects in place is a class whose methods are proved equal to an
operation on a value (`View()`, `State()`); what many requests do to each other is a transition
system whose runs are arbitrary sequences of steps; what it promises is proved about the values and
the runs.

| module | what it is |
|---|---|
| `ListCache` | the list cache: a byte-bounded LRU keyed by a content generation, a class over a list, a map and a count, against a pure cache |
| `CacheFreshness` | requests and writes interleaving around that cache |
| `Compress` (with `HttpText`) | the gzip middleware's three-mode writer, against one specification of a delivered answer |
| `TextLaws` | what trimming, folding, splitting and naming in a header's list come to |
| `CachedAnswer` | the uncacheable, missed and hit paths of a list answer, as the client sees them |
| `TokenBucket`, `RetryAfter` | the token-bucket limiter with debt and sweeping, against a ledger that never drops a bucket; the waits it tells |
| `Admission`, `Settling`, `Middleware` | who pays which bucket: requests interleaving over the limiters, what each comes to pay, and the middleware's sequence for one |
| `Lockout` | the failure lockout, against a ledger that never drops an entry |
| `SingleFlight`, `FlightProtocol`, `FlightAnswers` | shared community cover fetches: the bookkeeping, any number of asks over it, and where their answers come from |
| `WakeUps` | the broadcast signal and its waiter protocol |
| `Slots`, `CoverArt` | the cover pipelines' nested slots: any number of requests at once, and one request step by step |
| `Ebml`, `Id3` | the fixture writers' binary formats, against readers of the formats |
| `CastTokens`, `CastRows`, `CastRuns`, `CastLife` | cast tokens: the tables' statements, what each does row by row, whole runs of them, and one token through a run |
| `Earlier` | the chunked nearest-first search for a series' earlier books |
| `AuthCode` | auth codes and their retyping |
| `Basics` | shared vocabulary |

Some promises of the comments or the design hold only under a condition. Each is proved together with
its exact condition, and with a run that shows it fail:

- Sweeping idle buckets is invisible exactly while two full refills take at most a day
  (`TokenBucket.SweepIsInvisibleExactly`); slower rates can have a debt forgiven.
- At most burst + rate * time Allows succeed exactly while one full refill takes at most a day
  (`TokenBucket.AllowsAreBoundedExactly`), and an address with at most k requests in flight pays
  within burst + rate * time + k exactly while burst + k tokens accrue in a day
  (`Admission.PaymentsAreBoundedExactly`). The configuration accepts any positive rate
  (`internal/config/config.go:763-778`).
- A client that waits its Retry-After is let through except when the wait's truncation to a
  nanosecond lands on a whole number of seconds (`RetryAfter.RetryAfterSuffices`).
- A cached miss shows the client what an uncacheable answer does, except for a nil value, which
  `writeJSON` answers with no body and the cache with `null`
  (`CachedAnswer.UncachedAndMissAgreeExactly`). The write function's signature admits a nil; none of
  its callers passes one.
- Pruning cast tokens changes no answer, except at the one instant a live token or its sender
  expires: the SQL counts that instant as expired (`internal/auth/cast.go:108-113`), the check does
  not (`internal/auth/auth.go:747-753`), though a comment says no pruned token could work again
  (`CastRuns.PruneIsInvisibleExactly`).
- No waiter sleeps beside a queued job it may claim whose fire has completed, exactly as long as no
  held job's module is turned on again, which makes its jobs fit with no fire
  (`WakeUps.NoMissedWorkExactly`).
- An EBML size reads back exactly below 2^28-1 (`Ebml.VintRoundTrips`); 2^28-1 itself is written
  as the reserved unknown size.

## Model

| member | source | states |
|---|---|---|
| ListCache.ListCache.constructor | internal/api/listcache.go:63-65 | a new cache is the pure cache after no operations |
| ListCache.ListCache.At | internal/api/listcache.go:71-78 | a newer generation empties the cache, an older one is refused and changes nothing |
| ListCache.ListCache.Get | internal/api/listcache.go:81-94 | list, map and count answer and move as the pure cache: a hit moves its entry to the front |
| ListCache.ListCache.MoveToFront | internal/api/listcache.go:87-93 | only the looked-up entry moves, the rest keep their order |
| ListCache.ListCache.Put | internal/api/listcache.go:97-119 | list, map and count store as the pure cache: too big or too old is not stored, a present key is moved and kept, a new one evicts |
| ListCache.ListCache.Evict | internal/api/listcache.go:110-118 | the eviction loop leaves the longest front part that fits beside the new entry, the map exactly that part's keys |
| ListCache.FittingIsMost | internal/api/listcache.go:110-118 | eviction stops at the first moment the rest fits, no earlier and no later |
| ListCache.GetKeepsBound | internal/api/listcache.go:81-94 | a look-up keeps keys distinct and the byte bound |
| ListCache.PutKeepsBound | internal/api/listcache.go:97-119 | a store keeps keys distinct and the bytes within the limit unless one entry alone is over it |
| ListCache.OlderGenerationIsInert | internal/api/listcache.go:66-78 | a request of an older generation neither reads nor stores; a newer one finds nothing and starts afresh |
| ListCache.NewEntrySurvives | internal/api/listcache.go:97-119 | the entry just stored is never evicted by its own store, and the next look-up finds it |
| ListCache.RunIsByRecency | internal/api/listcache.go:16-61 | after any run of look-ups and stores the entries stand in the order of their last use, within the bound |
| ListCache.EvictsLeastRecentlyUsed | internal/api/listcache.go:110-118 | in any run, whatever a store evicts was last used before everything it keeps |
| ListCache.EvictsNoMoreThanNeeded | internal/api/listcache.go:110-118 | a store evicts a tail of the order, and one entry fewer would have been over the limit |
| ListCache.EntriesAreOfThisGeneration | internal/api/listcache.go:66-78 | in any run every entry held was stored by a request of the cache's present generation |
| ListCache.HeldIsFound | internal/api/listcache.go:80-94 | in any run a look-up finds exactly the entry held under its key, of the present generation |
| ListCache.CostsItsBuffers | internal/api/listcache.go:121-123 | what entries cost is their buffers' capacities and 256 for each |
| ListCache.BuffersAreBounded | internal/api/listcache.go:41-61 | in any run the buffers held, and 256 for each entry, take at most 8 MiB, unless a single entry is all there is |
| CacheFreshness.StepKeeps | internal/api/listcache.go:24-39 | every step of a request or a write keeps every entry and answer built from states the database went through, none without a write its generation counts |
| CacheFreshness.AnswersAreFresh | internal/api/listcache.go:24-39 | over every interleaving, every answer, cached or not, was computed from states the database went through in that run, one after the other, each holding every write finished before its request read the generation |
| CacheFreshness.QuietHitIsExact | internal/api/listcache.go:24-39 | with no write committed beyond those, a hit is what recomputing now gives |
| CacheFreshness.OldRequestsAreInert | internal/api/listcache.go:66-78 | in every run a request holding an older generation than the cache's gets nothing from it and stores nothing in it |
| CacheFreshness.StoredIsHit | internal/api/listcache.go:144-181 | an answer stored is what the next request of its generation and key is given, unless one was held already, which then is |
| Compress.GzipWriter.WriteHeader | internal/api/compress.go:154-173 | any status at any point keeps the writer a correct partial delivery: one final status, informational ones passed through first |
| Compress.GzipWriter.Write | internal/api/compress.go:175-198 | any piece at any point keeps the writer a correct partial delivery, whichever of its modes it is in |
| Compress.GzipWriter.StartGzip | internal/api/compress.go:200-208 | sends the one status, marked gzip, naming Accept-Encoding in Vary and without Content-Length |
| Compress.GzipWriter.Finish | internal/api/compress.go:212-228 | what was held back is sent with its length, a gzip stream is closed: the answer delivered is the specified one |
| Compress.Serve | internal/api/compress.go:97-111 | the whole middleware, for any sequence of statuses and pieces, delivers the specified answer |
| Compress.NoStatusNoBody | internal/api/compress.go:175-198 | no sequence of acts writes a body without settling a status |
| Compress.GzippedExactlyWhen | internal/api/compress.go:154-228 | gzip exactly for a client that takes it, JSON neither coded already nor tagged, a status other than 204 and 304, and at least 1024 bytes in all; exactly one final status, the first non-informational one |
| Compress.JSONExactly | internal/api/compress.go:230-234 | a type is JSON exactly when what stands before its parameters, blanks apart, is application/json in any case |
| Compress.VariesExactly | internal/api/compress.go:154-173 | the Vary sent is the handler's, and for JSON Accept-Encoding besides exactly when no item of it is that |
| Compress.LengthExactly | internal/api/compress.go:200-228 | a gzipped answer has no Content-Length; a short one that might have been has the handler's, else its body's; any other keeps the handler's or none |
| Compress.ChunkingIsInvisible | internal/api/compress.go:175-228 | two ways of writing the same body give the same status, headers and decoded body |
| HttpText.AddVaryNames | internal/api/compress.go:241-258 | adding a token to Vary names it, once, and removes nothing; what naming is, `TextLaws.NamesExactly` says |
| TextLaws.NamesExactly | internal/api/compress.go:247-258 | Vary values name a token if and only if one of their comma-separated items, blanks around it apart, is it in any case |
| TextLaws.AddsExactly | internal/api/compress.go:241-245 | a token is added, as one value more, exactly when no item of any value is it |
| TextLaws.EveryValueLists | internal/api/compress.go:249-250 | every value is a list of such items, so the two hold of all headers |
| TextLaws.FoldsExactly | internal/api/compress.go:251-251 | two characters fold alike exactly when they are the same or cases of one letter |
| CachedAnswer.Send | internal/api/compress.go:97-111 | the server sends a handler's script as specified, through the middleware or around it |
| CachedAnswer.CachedSeen | internal/api/listcache.go:172-181 | stored gzip, identity and middleware gzip all show the client the encoding of the value, gzipped exactly when it takes it and 1024 bytes are reached |
| CachedAnswer.StoredGzipIsSent | internal/api/listcache.go:169-181 | a client that takes gzip is sent the stored gzip itself, whole and with its length |
| CachedAnswer.ZipsExactly | internal/api/listcache.go:156-163 | a miss zips what it built exactly from 1 KiB to the 1 MiB the cache keeps, and keeps the encoding as it is |
| CachedAnswer.UncachedAndMissAgreeExactly | internal/api/listcache.go:144-181 | uncacheable answer and miss show the client the same status, type, Vary, coding and body, exactly when the value is not nil |
| CachedAnswer.HitShowsWhatAMissWould | internal/api/listcache.go:144-181 | after any run of look-ups and stores, a hit shows any client what a miss of its own would of a value stored under its key and generation; nothing over 1 MiB is ever a hit |
| TokenBucket.RateLimiter.constructor | internal/api/ratelimit.go:192-209 | the idle TTL is two refills, truncated, a minute at least and a day at most |
| TokenBucket.RateLimiter.DropIdle | internal/api/ratelimit.go:213-223 | the sweep loop drops exactly the buckets idle for longer than the TTL, when one is due |
| TokenBucket.RateLimiter.Refill | internal/api/ratelimit.go:227-237 | sweeps, then tops the key's bucket up to now, a full one when there is none |
| TokenBucket.RateLimiter.TryAllow | internal/api/ratelimit.go:240-249 | Allow as an operation on the limiter's value |
| TokenBucket.RateLimiter.IsReady | internal/api/ratelimit.go:252-256 | Ready as an operation on the limiter's value: nothing is paid |
| TokenBucket.RateLimiter.WaitFor | internal/api/ratelimit.go:262-271 | Wait as an operation on the limiter's value |
| TokenBucket.RateLimiter.Pay | internal/api/ratelimit.go:280-285 | Charge as an operation on the limiter's value, into debt down to -burst |
| TokenBucket.NextSound | internal/api/ratelimit.go:227-285 | every call keeps every bucket's tokens in [-burst, burst] |
| TokenBucket.IdleTTLExactly | internal/api/ratelimit.go:192-209 | the idle TTL is the last nanosecond by which no more than a full debt is refilled, but a minute at least and a day at most |
| TokenBucket.IdleTTLCovers | internal/api/ratelimit.go:192-209 | the truncated, capped TTL covers any debt exactly while two refills take at most a day |
| TokenBucket.SweepIsInvisible | internal/api/ratelimit.go:213-223 | after any run of calls on any keys, the sweeping limiter answers as one that never drops a bucket, when its idle TTL refills a full debt |
| TokenBucket.SweepIsInvisibleExactly | internal/api/ratelimit.go:182-223 | that holds of all runs if and only if two refills fit the cap; else a run of charges and allows shows the difference |
| TokenBucket.AllowsAreBounded | internal/api/ratelimit.go:240-249 | in any stretch of any run of the sweeping limiter at most burst + rate * time Allows of a key succeed, when one refill takes at most a day |
| TokenBucket.AllowsAreBoundedExactly | internal/api/ratelimit.go:185-249 | that holds of all runs if and only if one refill fits the cap; else burst Allows twice over, an idle TTL apart, are all let through |
| TokenBucket.BucketsAreRecent | internal/api/ratelimit.go:211-223 | after any call no bucket is held that was idle for two idle TTLs |
| RetryAfter.ReadyExactly | internal/api/ratelimit.go:252-271 | a bucket below a token is ready exactly once its untruncated wait is over |
| RetryAfter.WaitWithinTTL | internal/api/ratelimit.go:258-271 | a wait is never longer than the idle TTL, so no bucket is swept while its client waits |
| RetryAfter.WaitIsHonest | internal/api/ratelimit.go:258-271 | after any run, and with any calls on other keys in between, the sweeping limiter refuses every Ready before an uncapped wait is over and grants every one after; at its last nanosecond exactly when nothing was truncated |
| RetryAfter.WaitIsNothingExactly | internal/api/ratelimit.go:258-271 | after any run Wait answers 0 for a key that is ready, and else exactly when its true wait is under a nanosecond |
| RetryAfter.NotReadyBeforeWait | internal/api/ratelimit.go:258-271 | after any run, capped or not, a key is not ready before the wait it was told is over |
| RetryAfter.CappedWaitFallsShort | internal/api/ratelimit.go:258-271 | after any run the answer is a day that does not suffice exactly when the true wait is over a day |
| RetryAfter.ChargeShutsOutBriefly | internal/api/ratelimit.go:273-285 | after any run and a charge, the limiter is ready for the key again once burst + 1 tokens have accrued |
| RetryAfter.RetryCoversWait | internal/api/ratelimit.go:113-121 | Retry-After is the least whole number of seconds, at least one, that covers the wait |
| RetryAfter.RetryAfterSuffices | internal/api/ratelimit.go:113-121 | after any run, a client that waits its Retry-After is let through, exactly unless truncation cut its wait to whole seconds |
| RetryAfter.RetryAfterCanBeShort | internal/api/ratelimit.go:258-271 | a run of six charges and a Wait after which it does come back too soon |
| TokenBucket.IdleTTLRefills | internal/api/ratelimit.go:192-209 | what the truncated, capped TTL refills, up to twice the burst, is what a day does |
| Admission.StepPays | internal/api/middleware.go:229-407 | every step of every request, sweeps included, keeps payments and remaining tokens of an address in balance |
| Admission.PaymentsAreBounded | internal/api/middleware.go:349-407 | over the sweeping limiters, with at most k <= burst requests in flight and burst + k tokens a day, an address's payments and its requests in flight between any two moments of any interleaving are at most burst + rate * time + k |
| Admission.PaymentsAreBoundedExactly | internal/api/middleware.go:349-407 | that holds of all runs if and only if burst + k tokens accrue in a day; else k failures and burst requests, and both again an idle TTL later, break it |
| Settling.LookupsArePaidForOnce | internal/api/middleware.go:349-407 | over every interleaving a request over after its token was looked up was paid for exactly once, by its credential only if served, else by its address; one over without a lookup cost nothing but the one payment of a general request served; no failure goes uncharged |
| Settling.OnlyItsRequestsPay | internal/api/middleware.go:349-407 | an address pays in no step but those of its own requests that charge it |
| Middleware.RateLimit | internal/api/middleware.go:229-253 | what each route class asks of its address's bucket, and the wait of a refusal |
| Middleware.SpendCredential | internal/api/middleware.go:400-407 | a credential with a token pays and its address does not; a refusal charges the address and answers the longer wait, each call at its own time |
| Middleware.AllowCredential | internal/api/middleware.go:384-393 | a demo session pays its address instead, and pays it for a refusal too |
| Middleware.AuthLimited | internal/api/middleware.go:349-373 | every outcome of the sequence: what each bucket pays and the wait it answers; a request already charged pays nothing |
| Middleware.AuthLimitedIsARun | internal/api/middleware.go:349-373 | the sequence of AuthLimited, at any times, is a run of that request's steps in the interleaved system, with the same limiters and answer |
| Middleware.RefusedClientPasses | internal/api/middleware.go:394-407 | after any runs of both limiters, a client refused by its credential's bucket that waits the wait it was answered passes both buckets |
| Middleware.EarlyClientIsRefused | internal/api/middleware.go:394-407 | after any runs of both limiters, a client refused by its credential's bucket that comes back before the wait it was answered is over is refused again by one of the two |
| Lockout.FailureLimiter.constructor | internal/api/ratelimit.go:48-55 | a new lockout holds nothing |
| Lockout.FailureLimiter.IsAllowed | internal/api/ratelimit.go:58-74 | Allowed as an operation on the lockout's value, its stale entry dropped |
| Lockout.FailureLimiter.TryAcquire | internal/api/ratelimit.go:81-100 | Acquire as an operation on the lockout's value: admitted and counted at once |
| Lockout.FailureLimiter.LockedOutFor | internal/api/ratelimit.go:103-111 | LockedFor as an operation on the lockout's value, changing nothing |
| Lockout.FailureLimiter.Failed | internal/api/ratelimit.go:124-139 | Fail as an operation on the lockout's value |
| Lockout.FailureLimiter.Clear | internal/api/ratelimit.go:142-146 | Reset as an operation on the lockout's value |
| Lockout.FailureLimiter.DropStale | internal/api/ratelimit.go:150-163 | the sweep loop drops exactly the entries whose window is over, when one is due |
| Lockout.DroppingIsInvisible | internal/api/ratelimit.go:58-74 | after any run of calls the lockout answers as one that never drops an entry |
| Lockout.AcquiresAreBounded | internal/api/ratelimit.go:76-100 | in any half-open interval of one window without a Reset, Acquire admits a key at most maxFailures times |
| Lockout.FailsAreBounded | internal/api/ratelimit.go:57-74 | with at most k attempts between Allowed and Fail, at most maxFailures + k - 1 Fails happen in such an interval |
| Lockout.LockLastsAWindow | internal/api/ratelimit.go:124-139 | a lock refuses until exactly a window after the last failure, and LockedFor says what is left of it |
| Lockout.LockedExactly | internal/api/ratelimit.go:57-139 | after any run Allowed and Acquire refuse a key exactly while its failures in a row, counted since its last Reset or a gap longer than the window, are maxFailures or more and the last is less than a window ago; LockedFor answers what is left of that, else nothing |
| Lockout.ResetStartsAgain | internal/api/ratelimit.go:141-146 | after a Reset a key is free and its failures count from nothing |
| Lockout.EntriesAreRecent | internal/api/ratelimit.go:148-163 | after any counted attempt no entry is held that was idle for two windows, however many keys there were |
| SingleFlight.CommunityFlights.JoinCall | internal/api/handlers_community_covers.go:200-219 | join as an operation on the bookkeeping: refused by a remembered failure, follows the call in flight, or leads a new one |
| SingleFlight.CommunityFlights.RefusesYet | internal/api/handlers_community_covers.go:203-208 | a failure is refused until its time and forgotten from then on |
| SingleFlight.CommunityFlights.RememberFailure | internal/api/handlers_community_covers.go:237-253 | a full memory drops what has expired and else remembers nothing new |
| SingleFlight.CommunityFlights.Purge | internal/api/handlers_community_covers.go:242-247 | the purge loop drops exactly the expired failures |
| SingleFlight.CommunityFlights.FinishCall | internal/api/handlers_community_covers.go:224-233 | finish as an operation on the bookkeeping: the call leaves the map and is done, its failure remembered unless abandoned |
| SingleFlight.MemoryBounded | internal/api/handlers_community_covers.go:237-253 | the memory never exceeds its bound nor holds anything for longer than a minute |
| SingleFlight.FailuresLast | internal/api/handlers_community_covers.go:200-253 | neither joining nor finishing drops a failure before its time |
| FlightAnswers.RememberExactly | internal/api/handlers_community_covers.go:237-253 | with room once what has expired is gone the URL is remembered for a minute from now, without it nothing is, and no other URL's failure is new or moved |
| FlightAnswers.FinishRemembersExactly | internal/api/handlers_community_covers.go:221-253 | a fetch that failed while its request was live is remembered for a minute, if there is room; one given up, or that came to something, changes nothing in the memory |
| FlightProtocol.StepKeeps | internal/api/handlers_community_covers.go:97-153 | every step of every ask, and every eviction of the thumbnail cache, keeps each call in flight with its one leader and each waiter on a call for its key |
| FlightProtocol.OneFetchPerKey | internal/api/handlers_community_covers.go:200-219 | in every reachable state each key has at most one fetch in flight |
| FlightProtocol.CompletedOnceByItsLeader | internal/api/handlers_community_covers.go:224-233 | a call is completed once, by the ask that leads it, with a result, and never changes after |
| FlightProtocol.WaitersAreNeverStranded | internal/api/handlers_community_covers.go:108-125 | every waiter's call is done, and it may go on, or its leader has a step to take |
| FlightProtocol.NoAnswerIsAnothersGivingUp | internal/api/handlers_community_covers.go:108-125 | no ask answers with the error of another that gave up; a shared answer is the flight's own outcome for its own key |
| FlightProtocol.MemoryIsBounded | internal/api/handlers_community_covers.go:237-253 | in every reachable state the failure memory is within its bound |
| FlightProtocol.RememberedFailureHoldsOff | internal/api/handlers_community_covers.go:200-212 | from a remembered failure until its time no ask fetches the URL, at any size, but one that retries |
| FlightAnswers.FailedFetchHoldsOff | internal/api/handlers_community_covers.go:200-253 | in every run, from a live request's failed fetch, with room in the memory, for a whole minute every ask of the URL, at any size, but one that retries is answered at once with the recent failure |
| FlightAnswers.AnswersAreEarned | internal/api/handlers_community_covers.go:97-125 | in every reachable state an ask's own thumbnail or failed fetch is what a call it led came to, and a recent failure is only ever its own and never a retrying ask's |
| FlightAnswers.RecentIsRemembered | internal/api/handlers_community_covers.go:200-212 | a recent failure is answered only by joining without a retry, of a URL whose failure is remembered right then |
| FlightAnswers.AbandonedWaiterAsksAgain | internal/api/handlers_community_covers.go:112-124 | a live waiter whose leader gave up goes back to look and ask again; any other released takes the call's result |
| FlightAnswers.FetchedIsServed | internal/api/handlers_community_covers.go:97-153 | in every run, from a fetched thumbnail until its eviction every ask for its key is answered when it looks, with one that was fetched for the key or held at the start |
| FlightAnswers.CachedWasFetched | internal/api/handlers_community_covers.go:130-153 | whatever the thumbnail cache holds in a run was held at its start or fetched for its key |
| FlightAnswers.JoinForgets | internal/api/handlers_community_covers.go:200-212 | a failure whose minute is over is forgotten by the first join that does not retry |
| WakeUps.Signal.constructor | internal/bridge/signal.go:14-14 | a new signal has an open channel and has closed none |
| WakeUps.Signal.Wait | internal/bridge/signal.go:17-21 | hands out the open channel |
| WakeUps.Signal.Fire | internal/bridge/signal.go:24-29 | closes the channel handed out, once, and puts a new one in its place; all before it are closed |
| WakeUps.StepKeeps | internal/bridge/signal.go:5-29 | every step of waiters and producers, and every cancel, promotion or hold of a job, keeps a waiter past its look from holding an open channel beside a job fired for and not released since |
| WakeUps.NoMissedWork | internal/bridge/jobs.go:1281-1302 | in every run a waiter blocked beside a queued job it may claim, by kind and priority, whose fire has completed may wake, unless the job's module was turned on again after it last looked |
| WakeUps.NoMissedWorkExactly | internal/bridge/jobs.go:1281-1302 | no run has a waiter asleep beside such a job if and only if held jobs are not released |
| WakeUps.ReleasedJobWaits | internal/bridge/jobs.go:227-234 | a run in which a held job is released beside a blocked waiter, its fire long completed, and nothing wakes the waiter |
| Slots.StepKeeps | internal/api/handlers_covers.go:322-361 | every step keeps each channel's length the number of its holders and within its capacity |
| Slots.PipelinesNeverDeadlock | internal/api/handlers_covers.go:322-361 | with any number of pipelines of every kind, each reachable unfinished state has a step that needs no request to end, and no capacity is exceeded |
| Slots.NotStuck | internal/api/handlers_community_covers.go:97-153 | the same of any state that keeps the invariant, followers of leaders included |
| Slots.RunsEnd | internal/api/handlers_covers.go:322-361 | every run is shorter than a measure of its start, rejoining followers included |
| CoverArt.Pipelines.DecodeThumbnail | internal/api/handlers_covers.go:348-361 | a decode holds one thumbSem slot, given back on every path; an undecodable image is no thumbnail, not an error |
| CoverArt.Pipelines.MakeThumbnail | internal/api/handlers_covers.go:322-343 | a coverReads slot is held to the end of the decode and both slots are given back on every path; oversized art is no art |
| CoverArt.Pipelines.CoverThumbnail | internal/api/handlers_covers.go:240-250 | the cache gains exactly what was made, nothing for a failure, and a cached one takes no slot |
| CoverArt.Pipelines.FetchCommunityThumbnail | internal/api/handlers_community_covers.go:130-153 | the same for a community fetch under its own slot; a URL that isn't one and an image too large are cached as none |
| CoverArt.OwnArtExactly | internal/api/handlers_covers.go:322-361 | own art is kept as none exactly when there is none, it is too large or does not decode; it is an error to try again exactly when it could not be read, or the request ended first |
| CoverArt.CommunityArtExactly | internal/api/handlers_community_covers.go:130-153 | a community cover is kept as none exactly when its URL is none, it is too large or does not decode; it is an error exactly when the fetch failed, or the request ended first |
| Ebml.VintRoundTrips | cmd/mkfixtures/main.go:379-390 | a size reads back as itself, whatever follows, if and only if it is below 2^28-1 |
| Ebml.VintReserved | cmd/mkfixtures/main.go:379-390 | 2^28-1 is written as the reserved unknown size |
| Ebml.VintIsShortest | cmd/mkfixtures/main.go:379-390 | no shorter width could have held the size without being reserved |
| Ebml.IdRoundTrips | cmd/mkfixtures/main.go:392-403 | an ID reads back as itself exactly when its marker bit matches its length |
| Ebml.ElementReads | cmd/mkfixtures/main.go:392-406 | a reader finds an element's ID, body and what follows |
| Ebml.ForestRoundTrips | cmd/mkfixtures/main.go:392-412 | any forest of well-formed elements, written and parsed, is itself |
| Ebml.DigitsRoundTrip | cmd/mkfixtures/main.go:408-412 | an integer's digits read back as the integer |
| Ebml.SeekHeadReadsBack | cmd/mkfixtures/main.go:502-506 | the SeekHead parses to its two IDs and positions |
| Ebml.SeekHeadPointsTrue | cmd/mkfixtures/main.go:502-514 | the positions worked out from a SeekHead of zeros are where the chapters and tags lie in the final body, whatever the parts |
| Ebml.SeekHeadFindsItsParts | cmd/mkfixtures/main.go:498-514 | the SeekHead names, by the ID each has, the places in the body it heads at which the tags and the chapters are read, whatever the parts |
| Id3.SyncsafeRoundTrips | cmd/mkfixtures/main.go:41-43 | a synchsafe integer reads back if and only if it is below 2^28, and every byte is below 0x80 |
| Id3.Unsynchronise | cmd/mkfixtures/main.go:113-122 | the loop writes the unsynchronisation of its input |
| Id3.UnsyncRoundTrips | cmd/mkfixtures/main.go:113-122 | undoing unsynchronisation gives back every byte string |
| Id3.UnsyncIsClean | cmd/mkfixtures/main.go:113-122 | the result holds no 0xff before a byte of 0xe0 or more and does not end in 0xff |
| Id3.UnsyncIsIdentityExactly | cmd/mkfixtures/main.go:113-122 | it changes nothing exactly when its input is clean and a reader would leave it alone |
| CastTokens.CoversWholeSegments | internal/auth/cast.go:65-73 | a grant covers exactly the paths of its library that begin with its own whole segments |
| CastRows.CastNeedsItsBook | internal/auth/auth.go:482-498 | a cast token is accepted only where cast tokens are, for media of its own book, as its sender |
| CastRows.DeviceAnswersExactly | internal/auth/auth.go:482-603 | any other token is accepted exactly while of a kind asked for, signed in and unexpired, its person enabled, and an admin for a Bridge's |
| CastTokens.NewestAreNewest | internal/auth/cast.go:156-160 | the rows kept are the n greatest ids, or all |
| CastTokens.Service.PruneCastTokens | internal/auth/cast.go:108-120 | deletes the dead cast tokens with the grants that cascade, nothing else |
| CastTokens.Service.IssueCastToken | internal/auth/cast.go:128-166 | prunes, inserts the token and its grant and trims, all or nothing: a bad argument or a missing user or sender leaves the tables as they were |
| CastRows.MintSucceedsExactly | internal/auth/cast.go:128-166 | a mint succeeds exactly with person, sender and book named, the person there, and the sender there and, if a cast token itself, not dead |
| CastRows.PruneExactly | internal/auth/cast.go:101-120 | a token goes exactly when it is a cast token that is dead by its own row, its grant or its sender; its grant goes with it; all else stays as it was |
| CastTokens.Service.SignOutDevice | internal/auth/devices.go:178-199 | the device's token is revoked and its browser's key forgotten on all the person's tokens |
| CastTokens.Service.SignOutMembers | internal/auth/devices.go:203-223 | the members' tokens made on the device are revoked and their usernames answered, sorted, each once |
| CastTokens.Service.RevokeDevice | internal/auth/devices.go:177-223 | the three updates together, or not found and nothing changed |
| CastRows.SignOutRefusedExactly | internal/auth/devices.go:177-187 | a sign-out finds nothing, and changes nothing, exactly when the row is no live session or API token, or not the owner's where one is named |
| CastRows.SignOutReaches | internal/auth/devices.go:177-223 | whose devices it reaches: a live token is revoked exactly when it is the one named or, asked for and by its owner, a member's of theirs made on it |
| CastRows.SignOutForgets | internal/auth/devices.go:188-199 | the browser key forgotten is the device's, on its person's tokens that carry it and no others |
| CastRows.SignOutNames | internal/auth/devices.go:203-223 | the usernames answered are exactly those of the members signed out |
| CastRuns.StepKeepsValid | internal/auth/cast.go:108-166 | every operation keeps ids ever new, and every grant a cast token's with a sender that is there |
| CastRuns.PruneIsInvisibleExactly | internal/auth/cast.go:101-120 | a prune changes the answer to no request now or later, exactly but for a live token asked for at the instant it or its sender expires |
| CastRuns.PruneAtTheExpiry | internal/auth/auth.go:747-753 | a state in which it does |
| CastRuns.PruneIsInvisibleForever | internal/auth/cast.go:101-120 | a prune changes no reply of any later run of requests, sign-ins, mints, prunes and sign-outs |
| CastRuns.MintKeepsNewest | internal/auth/cast.go:128-166 | a mint leaves its person exactly the newest 20 of the live cast tokens and the new one, which is among them |
| CastRuns.NeverMoreThanTwenty | internal/auth/cast.go:39-43 | in every run no person ever holds more than 20 cast tokens |
| CastRuns.MintedAnswers | internal/auth/cast.go:75-99 | right after its mint a token works exactly while unexpired, its person enabled, its sender signed in and unexpired, for its own book, as its sender |
| CastLife.MintedAnswersLater | internal/auth/cast.go:22-33 | through any later run with fewer than 20 more mints for its person, prunes and sign-outs included, a token works exactly while unexpired, its person enabled, its sender then signed in and unexpired, for its own book, as its sender |
| CastLife.RunRemains | internal/auth/cast.go:101-166 | through such a run the token is there unchanged, or was deleted when it could not work again |
| CastRuns.SignedOutIsForGood | internal/auth/devices.go:177-223 | once a device is signed out no request is ever again accepted as it or as a member made on it: not its token, nor any cast token it sent or yet sends |
| CastRuns.SignOutTouchesOnly | internal/auth/devices.go:177-223 | a sign-out revokes exactly the tokens it names and forgets exactly one browser's key |
| Earlier.SearchChunk | internal/api/handlers_bridge_estimate.go:203-224 | one chunk, searched from its end, extends what is kept by exactly its nearest qualifying members |
| Earlier.EarlierWithoutRecaps | internal/api/handlers_bridge_estimate.go:200-230 | the result is, in reading order, exactly the nearest 10 qualifying books of the last 30 members, whatever their number |
| Earlier.KeptIsNearest | internal/api/handlers_bridge_estimate.go:203-227 | what a backward search keeps is the nearest of all that qualifies, reversed |
| Earlier.EarlierIsExact | internal/api/handlers_bridge_estimate.go:200-230 | the result said of places: at most 10, increasing, among the last 30, each qualifying, and every qualifying one left out is further away than all of a full 10 |
| AuthCode.EncodeRoundTrips | internal/auth/hash.go:143-146 | the encoding decodes to the bytes it was made of |
| AuthCode.EncodeIsInjective | internal/auth/hash.go:143-146 | two byte strings have the same code symbols exactly when they are equal |
| AuthCode.DigitIsItsBits | internal/auth/hash.go:143-146 | digit k of five bytes is bits 5k to 5k+4 of their forty |
| AuthCode.SymbolIsItsBits | internal/auth/hash.go:143-154 | a code's symbol is the alphabet's at those bits, group after group |
| AuthCode.ShowInFours | internal/auth/hash.go:155-161 | the loop shows the symbols in groups of four, a dash between groups and nowhere else |
| AuthCode.GenerateAuthCode | internal/auth/hash.go:149-164 | 10 bytes give 16 symbols in 19 characters, which read back as the symbols |
| AuthCode.NormalisesExactly | internal/auth/hash.go:168-174 | a typed code reads as given symbols if and only if, trimmed, it is one of their retypings |
| AuthCode.RetypingNormalises | internal/auth/hash.go:166-174 | every retyping, in any case, with look-alikes, dashes and spaces anywhere and blanks around, reads as the same symbols |
| AuthCode.SecretsNeverReadAlike | internal/auth/hash.go:149-174 | retypings of two codes read alike exactly when their secrets are equal |

## Left out

Modelled differently from the code:

- Time is a parameter of each call, in nanoseconds, and never goes back within one object; a wall clock set back is not modelled.
- Tokens and rates are reals, so floating-point rounding in the buckets is not modelled; the truncations to nanoseconds and to whole seconds are.
- Go's fixed-width integers are unbounded here, except the EBML writer's `uint32` ids and `uint64` values and its byte truncations.
- gzip is any pair of functions where unzipping what was zipped gives it back; a cache key is a number, as if its SHA-256 never collided; a presented token is the row its hash names.
- Locks are taken as held for each whole method, so a method is one step of the transition systems; the bodies' own steps are proved one at a time.
- Lockout.FailsAreBounded: an attempt ends with at most one Fail, and is not abandoned uncounted.
- Middleware.AuthLimited: one request without interruption, its limiter calls each at their own time; requests between its calls are Admission's.
- Middleware.RefusedClientPasses: no other traffic on the two buckets, and a wait under the day's cap; past it `RetryAfter.CappedWaitFallsShort` holds.
- RetryAfter.WaitIsHonest: no other call on the key itself, and the wait under the day's cap.
- CachedAnswer.UncachedAndMissAgreeExactly: Content-Length is not part of what the client sees, since a stored gzip has one and a stream has none; the view is of GET requests.
- Compress.Serve: writes to the network do not fail, a handler sets its headers before its first act, and the body a HEAD answer drops is net/http's.
- CacheFreshness.AnswersAreFresh: what a handler computes depends on its key and the database states it read, and on nothing else.
- Slots.RunsEnd: the requests of a run all exist from its start, waiting until they begin; decodes and fetches end.
- CoverArt.Pipelines.MakeThumbnail: one request alone, told how each of its selects ended; the colour recorded from a thumbnail is not modelled.
- Ebml.ForestRoundTrips: elements of known size whose IDs tell masters from leaves, as a schema does.
- CastLife.MintedAnswersLater: at an instant after the run's last operation; at that very instant `CastRuns.PruneIsInvisibleExactly` says what a prune can change.
- WakeUps.NoMissedWork: which of the jobs it may claim a waiter takes is left open, where the code takes the highest priority, then the oldest.
- CastTokens.Service.RevokeDevice: usernames are put in order as they are collected, where the code sorts and compacts at the end; `created_on_token_id` is never a cast token's, so its ON DELETE SET NULL is not modelled.
- AuthCode.NormalisesExactly: capitals other than ASCII ones are left as typed, since neither they nor their small letters are symbols; bytes that are no UTF-8 are not modelled.
- CastRuns.SignedOutIsForGood: among the operations modelled; deleting a person deletes their tokens, which refuses more.
- CastTokens.CoversWholeSegments: both paths are taken as already cleaned; `relpath.Clean` is not modelled.

Not modelled at all:

- HTTP routing, JSON decoding, request time-outs, CORS and the handlers that only authorise, call a service and map its errors.
- `tokenKeyed`, `peerIP` and the other path and pattern predicates: one-branch facts; a request's route class is given.
- The token cache and the touch of a token's last use, which leave every check's answer to the row.
- The cost figures an earlier book carries, and the counters of waiters in flight.
- The mp3 frame generator and the M4B patchers: fixture scripts over fixed tables.
- SQL itself, transactions, password hashing, image decoding and upstream fetches: maps, functions and free choices stand for them.
- The admin console, the web player and their assets.
