# Verified models of the service cores

This project models the parts of the repository whose correctness rests on interleavings, exact
arithmetic or inverse pairs, and proves what those parts promise.

- `SingleFlight` is `Cache.get_or_rebuild` as a transition system with one step per stretch of
  code between awaits. "Redis served the read" and "the task resumed" are separate steps.
- `CacheAside` is `resolve_slug` racing with `create_link` over one Redis and one append-only
  table. A Redis write travels on a wire: it may be served late, or never, even after its task
  gave up on it.
- `RateLimit` is the GCRA limiter in integer nanoseconds, with its pruned dictionary.
- `Snowflake` and `Base62` are the id generator, driven by an arbitrary stream of clock
  readings, and the slug printer and parser.
- `QueryText`, `PathTrees`, `QueryParams` and `QueryHeap` are the un-flattening of AWS Query
  parameters; the specification is a flattening that the parser must invert.
- `Mailboxes` and `Hubs` are the bounded outbound mailbox with its wake-up protocol, and the
  fan-out registry that reaps closed or wedged connections.
- `Ingest` is the click queue, its batching consumer and the shutdown drain.
- `Base64Url` and `Cursor` are the signed pagination token.
- `Runs`, `Arith`, `Bits`, `Options` and `CacheEntries` hold what the others share.

Where the source changes an object step by step the model has a class (`Cache`, `Resolution`,
`RateLimiter`, `IdGenerator`, `Mailbox`, `Hub`, `ClickIngestor`, `Dict`). Its methods are proved
against specification functions on values, and the theorems about whole runs are proved about
those functions.

Five statements deserve attention, because the code's own prose says more than the code does, or
nothing at all.

- `get_or_rebuild` documents a rebuild "once per herd". `SingleFlight.HerdCanRebuildTwice` is a run
  with two rebuilds while the entry stays cached. `SingleFlight.OncePerHerdExactly` gives the
  condition under which no second rebuild can happen: nobody holds a miss that Redis served before
  the write and that its task has not yet acted on.
- `create_link` clears the negative entry so that the link works at once.
  `CacheAside.ServedDeleteCanMissTheLink` is a run from an empty system in which the delete is served
  and the link stays invisible to some later resolve. `CacheAside.ServedDeleteShowsTheLink` gives
  the exact condition: nobody still has a negative answer to write back.
- `_prune` calls a forgotten key indistinguishable from one never seen.
  `RateLimit.PruneNoticedExactly` says when a client is told something else because of it: if and
  only if the clock has gone back to before the arrival time that was forgotten.
  `RateLimit.PruningShowsOnABackwardClock` is such a run from a new limiter, for every
  configuration. On a clock that never goes back it cannot happen (`RateLimit.PruningIsUnobservable`).
- `parse_query_params` documents no failure, but `int` refuses some keys that `isdigit` accepts, such
  as a superscript two. `QueryParams.ParseFailsExactly` gives the condition on the parameters, and
  `QueryParams.OneIndexKey` the smallest inputs: for `A.k=v` the result is a map, a list or a
  failure, according to what `isdigit` and `int` make of `k`.
- A cursor's tag vouches for its body, not for the spelling of the token.
  `Cursor.AcceptsEverySpellingOfTheTag` says which tokens are accepted for a body, and that exactly
  the canonical one of them is the token that was minted.

`dafny verify dfyconfig.toml` checks the whole project.

## Model

| member | source | states |
|---|---|---|
| `SingleFlight.StepKeepsInv` | projects/01-url-shortener/src/url_shortener/cache.py:253-287 | every step keeps: leaders and slots correspond one to one, pending futures have live leaders, woken waiters hold what their future holds |
| `SingleFlight.RunKeepsInv` | projects/01-url-shortener/src/url_shortener/cache.py:253-287 | the invariant holds in every state of every run, whatever Redis held at the start |
| `SingleFlight.OneLeaderPerSlug` | projects/01-url-shortener/src/url_shortener/cache.py:257-287 | in every interleaving a slug has at most one leader, is in `_inflight` exactly while a live leader holds its pending future, and nobody is parked on a future that nobody will resolve |
| `SingleFlight.WaitersGetTheLeadersOutcome` | projects/01-url-shortener/src/url_shortener/cache.py:257-285 | a waiter that finishes ends with exactly the value or exception its own leader ended with |
| `SingleFlight.LeavingResolvesTheFuture` | projects/01-url-shortener/src/url_shortener/cache.py:269-287 | whether by answer, failed rebuild, failed write or cancellation, the leader resolves its future and frees its slot in one step, caching nothing and touching no other slot |
| `SingleFlight.ParkedTasksCanFinish` | projects/01-url-shortener/src/url_shortener/cache.py:257-287 | from every state that satisfies the invariant a parked task can be woken within four steps |
| `SingleFlight.LeaderCanFinish` | projects/01-url-shortener/src/url_shortener/cache.py:269-287 | a leader can resolve its future within three steps, moving no other task |
| `SingleFlight.CallsAdvance` | projects/01-url-shortener/src/url_shortener/cache.py:253-287 | every step leaves a call where it is or takes it strictly further, so a call makes at most five moves |
| `SingleFlight.HitsAreReturned` | projects/01-url-shortener/src/url_shortener/cache.py:253-255 | a call whose read found a value returns exactly that value, whatever happened before it resumed, and touches no slot, future or entry |
| `SingleFlight.FailedReadsRaise` | projects/01-url-shortener/src/url_shortener/cache.py:253 | a call whose read failed ends with the exception of the read, and touches nothing |
| `SingleFlight.BadPayloadsRaise` | projects/01-url-shortener/src/url_shortener/cache.py:206-220 | a payload that cannot be decoded ends the call with an exception: it is neither a hit nor a miss |
| `SingleFlight.MissesParkOrLead` | projects/01-url-shortener/src/url_shortener/cache.py:257-267 | a call whose read found nothing parks on the future in the slot, or puts its own pending future there and rebuilds |
| `SingleFlight.RaisingLeadersRaise` | projects/01-url-shortener/src/url_shortener/cache.py:275-282 | a leader whose rebuild raises, or which is cancelled, ends with exactly that exception, and so does its future |
| `SingleFlight.FailedWritesRaise` | projects/01-url-shortener/src/url_shortener/cache.py:271-282 | a leader whose write fails ends with exactly the exception of the write, and so does its future |
| `SingleFlight.LeadersSucceed` | projects/01-url-shortener/src/url_shortener/cache.py:269-285 | a leader whose rebuild returned a value writes that value, and once it is acknowledged ends with it, and so does its future |
| `SingleFlight.WaitersEnd` | projects/01-url-shortener/src/url_shortener/cache.py:257-261 | a waiter that wakes ends with what its leader and its future hold; one that is cancelled ends cancelled; neither touches anything else |
| `SingleFlight.HitsComeFromRedis` | projects/01-url-shortener/src/url_shortener/cache.py:253-255 | a call that answers directly returns exactly what Redis held when it served that call's read, and never led a rebuild |
| `SingleFlight.LeadersReturnTheirRebuild` | projects/01-url-shortener/src/url_shortener/cache.py:269-285 | a leader that succeeds returns exactly what its own rebuild returned |
| `SingleFlight.SuccessWasWritten` | projects/01-url-shortener/src/url_shortener/cache.py:269-285 | before a leader succeeds with a value, Redis took exactly that value for its slug |
| `SingleFlight.WriteComesBeforeWake` | projects/01-url-shortener/src/url_shortener/cache.py:246-247 | when a waiter wakes with a value, its leader's write of that value was already in Redis |
| `SingleFlight.OnlyStaleReadersLead` | projects/01-url-shortener/src/url_shortener/cache.py:241-267 | while the entry stays cached, only a task whose read was served before can still come to lead |
| `SingleFlight.OncePerHerdExactly` | projects/01-url-shortener/src/url_shortener/cache.py:241-287 | with the entry cached and the slot free, another rebuild can happen if and only if some task holds a miss served earlier |
| `SingleFlight.HerdCanRebuildTwice` | projects/01-url-shortener/src/url_shortener/cache.py:242-247 | a run of two readers in which the entry is never removed and the slug is rebuilt twice: the unconditional claim is false |
| `SingleFlight.OthersCannotSee` | projects/01-url-shortener/src/url_shortener/cache.py:257-261 | no step of one task depends on where another stands, or changes it |
| `SingleFlight.CancelledWaiterIsUnobservable` | projects/01-url-shortener/src/url_shortener/cache.py:257-261 | the runs of everyone else after a waiter is cancelled are, state for state and in both directions, the runs they had while it was parked |
| `SingleFlight.UnshieldedHangUpHarms` | projects/01-url-shortener/src/url_shortener/cache.py:258-261 | in any state with two waiters on a live leader: without the shield one hanging up makes the other end cancelled while the leader still works, with it the other cannot wake yet |
| `SingleFlight.ShieldIsNeeded` | projects/01-url-shortener/src/url_shortener/cache.py:258-261 | a run from a new process reaches such a state |
| `SingleFlight.FailedRebuildsAreNotCached` | projects/01-url-shortener/src/url_shortener/cache.py:249-251 | over every run a leader whose rebuild raises never has a write served, before or after, not even one that fails after taking effect |
| `SingleFlight.Cache.constructor` | projects/01-url-shortener/src/url_shortener/cache.py:188-192 | a new cache has no slot and no future |
| `SingleFlight.Cache.AfterGet` | projects/01-url-shortener/src/url_shortener/cache.py:253-267 | the code from the answered read to the next await takes exactly the `Resume` step: return, park, or lead |
| `SingleFlight.Cache.Succeed` | projects/01-url-shortener/src/url_shortener/cache.py:283-287 | the success arm and the teardown take exactly the `Finish` step |
| `SingleFlight.Cache.Fail` | projects/01-url-shortener/src/url_shortener/cache.py:275-287 | the exception arm and the teardown take exactly the `LeaderRaises` step |
| `CacheAside.RowsStay` | projects/01-url-shortener/src/url_shortener/routes.py:231-238 | a link once inserted is never changed by any step |
| `CacheAside.StepKeepsTasks` | projects/01-url-shortener/src/url_shortener/resolve.py:94-120 | every step keeps each positive answer in a task's hands equal to its database row |
| `CacheAside.StepKeepsCache` | projects/01-url-shortener/src/url_shortener/resolve.py:123-138 | every step keeps each positive entry in Redis, and each one still to be written, equal to its row |
| `CacheAside.PositiveAnswersAreRows` | projects/01-url-shortener/src/url_shortener/resolve.py:87-138 | in every reachable state, with failures, expiry and cancellation anywhere, every positive answer, cached entry and pending write-back is the row |
| `CacheAside.AbsenceComesFromASelect` | projects/01-url-shortener/src/url_shortener/resolve.py:106-111 | a slug first becomes known as absent only by a select that found no row |
| `CacheAside.NegativeAnswersSawNoRow` | projects/01-url-shortener/src/url_shortener/resolve.py:94-111 | every negative answer is preceded by a select, of some task, that found no row, unless Redis began with the absence cached |
| `CacheAside.TasksAdvance` | projects/01-url-shortener/src/url_shortener/resolve.py:94-120 | every step leaves a task where it is or is a move of its own that takes it strictly further |
| `CacheAside.TasksCanMove` | projects/01-url-shortener/src/url_shortener/resolve.py:94-120 | until it has answered, a task always has a move other than giving up |
| `CacheAside.CachedEntriesAnswer` | projects/01-url-shortener/src/url_shortener/resolve.py:96-104 | a read that finds a link answers `HIT` with it and one that finds an absence answers `NEGATIVE`, whatever happened before the task resumed |
| `CacheAside.OtherReadsSelect` | projects/01-url-shortener/src/url_shortener/resolve.py:95-106 | a read that finds nothing goes to the table, and one that fails or cannot be decoded does so degraded |
| `CacheAside.ServedWritesAreRead` | projects/01-url-shortener/src/url_shortener/resolve.py:123-138 | once a write-back is served and until its entry expires, is corrupted or is overwritten, every read served ends in `HIT` with the row, or `NEGATIVE` for an absence |
| `CacheAside.MissesWriteBack` | projects/01-url-shortener/src/url_shortener/resolve.py:108-120 | a plain miss had on the wire the very row it answers with, or the absence |
| `CacheAside.SelectedAnswersAreTheTable` | projects/01-url-shortener/src/url_shortener/resolve.py:106-120 | a miss or a degraded answer is what the table held when the task's own select was served |
| `CacheAside.ReadsDecideTheLabel` | projects/01-url-shortener/src/url_shortener/resolve.py:94-120 | a resolve that answers is labelled `DEGRADED` if its read failed or could not be decoded, and `MISS` if it found nothing |
| `CacheAside.OnlyAbortsFail` | projects/01-url-shortener/src/url_shortener/resolve.py:90-93 | nothing the cache does fails a resolve or a create: only the table or a cancellation does |
| `CacheAside.InsertsDecideTheCreate` | projects/01-url-shortener/src/url_shortener/routes.py:231-252 | a create of a free slug inserts its row and, if it answers, has sent its delete and answers with the row; a create of a taken slug changes nothing and is refused |
| `CacheAside.DegradedResolvesNeverWrite` | projects/01-url-shortener/src/url_shortener/resolve.py:94-120 | a hit carries a row and a negative answer none, and a resolve that ends as either, or degraded, never had a write on the wire at any moment of the run |
| `CacheAside.AbsenceNeverReturns` | projects/01-url-shortener/src/url_shortener/resolve.py:94-120 | with the row in the table and no absence cached or pending, no step brings one back or misleads a task |
| `CacheAside.CleanSlugIsVisible` | projects/01-url-shortener/src/url_shortener/resolve.py:94-120 | in that situation every resolve started later answers with the row, by hit, miss or degraded read |
| `CacheAside.CachedAbsenceMisleads` | projects/01-url-shortener/src/url_shortener/resolve.py:103-104 | a negative entry in Redis makes some later resolve answer that there is no link |
| `CacheAside.WireAbsenceMisleads` | projects/01-url-shortener/src/url_shortener/resolve.py:132-138 | so does a negative write-back still on its way to Redis |
| `CacheAside.SelectedAbsenceMisleads` | projects/01-url-shortener/src/url_shortener/resolve.py:108-111 | so does a task that selected no row and has not yet written back |
| `CacheAside.LinkVisibleExactly` | projects/01-url-shortener/src/url_shortener/resolve.py:87-138 | an inserted link is visible to every later resolve in every continuation if and only if no absence is cached, on the wire, or in hand to be written back |
| `CacheAside.ServedDeleteShowsTheLink` | projects/01-url-shortener/src/url_shortener/routes.py:231-246 | once Redis serves the create path's delete the row is there, and it is visible to every later resolve if and only if nobody has a negative write-back pending |
| `CacheAside.ServedDeleteCanMissTheLink` | projects/01-url-shortener/src/url_shortener/routes.py:240-246 | a run from an empty table and Redis in which the delete is served and the link is invisible to some later resolve: the unconditional claim is false |
| `CacheAside.Resolution.constructor` | projects/01-url-shortener/src/url_shortener/resolve.py:94 | a resolution starts undegraded |
| `CacheAside.Resolution.OnReply` | projects/01-url-shortener/src/url_shortener/resolve.py:94-106 | the cache read's answer decides between a hit, a negative answer and a select, and an error sets the degraded flag |
| `CacheAside.Resolution.OnRow` | projects/01-url-shortener/src/url_shortener/resolve.py:108-120 | the selected row decides the answer; a write-back of exactly that row or its absence is issued unless degraded |
| `RateLimit.RateLimiter.constructor` | projects/01-url-shortener/src/url_shortener/ratelimit.py:80-90 | a new limiter knows no key and prunes above the constant |
| `RateLimit.NewRateLimiter` | projects/01-url-shortener/src/url_shortener/ratelimit.py:80-90 | construction is refused exactly for a non-positive period or a burst below one |
| `RateLimit.RateLimiter.Check` | projects/01-url-shortener/src/url_shortener/ratelimit.py:92-118 | the new dictionary, the threshold and the decision are those of the specification step |
| `RateLimit.RateLimiter.Prune` | projects/01-url-shortener/src/url_shortener/ratelimit.py:134-135 | exactly the keys ahead of `now` survive, and the threshold is at least the constant and twice their number |
| `RateLimit.DecisionsTellTheLimit` | projects/01-url-shortener/src/url_shortener/ratelimit.py:104-118 | every decision of every run tells the burst as its limit, an admission asks for no wait, and a denial leaves nothing |
| `RateLimit.DecideIsTake` | projects/01-url-shortener/src/url_shortener/ratelimit.py:102-118 | the decision on an arrival time is that of a bucket with exact credit: same verdict, same tokens left, same remaining credit |
| `RateLimit.LimiterIsTokenBuckets` | projects/01-url-shortener/src/url_shortener/ratelimit.py:80-118 | on any clock that never goes back, a fresh limiter decides every request as independent token buckets of capacity `burst` with exact fractional refill |
| `RateLimit.RunMatches` | projects/01-url-shortener/src/url_shortener/ratelimit.py:92-118 | the same from any state in which the buckets and the arrival times correspond |
| `RateLimit.AdmissionStaysInBurst` | projects/01-url-shortener/src/url_shortener/ratelimit.py:104-113 | an admission leaves the arrival time at most `burst` periods ahead of the clock |
| `RateLimit.CreditBoundsWindow` | projects/01-url-shortener/src/url_shortener/ratelimit.py:92-118 | from any state, the admissions in a window are paid for by the credit the window holds |
| `RateLimit.WindowBound` | projects/01-url-shortener/src/url_shortener/ratelimit.py:85-118 | any closed window of length T admits at most burst + floor(T / period) requests per key |
| `RateLimit.WindowBoundIsTight` | projects/01-url-shortener/src/url_shortener/ratelimit.py:85-118 | for every window some run meets that bound |
| `RateLimit.GreedyIsAdmitted` | projects/01-url-shortener/src/url_shortener/ratelimit.py:85-118 | every request of the client that sends a burst and then one per period is admitted |
| `RateLimit.PruneNoticedExactly` | projects/01-url-shortener/src/url_shortener/ratelimit.py:120-135 | for every configuration the decision a client gets at time t differs because of a prune if and only if t lies before the arrival time that was forgotten |
| `RateLimit.PruningShowsOnABackwardClock` | projects/01-url-shortener/src/url_shortener/ratelimit.py:112-135 | for every configuration some run from a new limiter prunes, and a step back of the clock then gives a decision that a limiter that never forgets would not give |
| `RateLimit.PruningIsUnobservable` | projects/01-url-shortener/src/url_shortener/ratelimit.py:92-135 | on a clock that never goes back every decision is that of a limiter that never forgets |
| `RateLimit.KeysStandAlone` | projects/01-url-shortener/src/url_shortener/ratelimit.py:92-135 | the decisions for one key are those of a limiter holding one number and seeing only that key |
| `RateLimit.CheckKeepsSize` | projects/01-url-shortener/src/url_shortener/ratelimit.py:112-115 | a check leaves the dictionary no larger than the threshold |
| `RateLimit.SizeStaysBounded` | projects/01-url-shortener/src/url_shortener/ratelimit.py:112-135 | so does every run |
| `RateLimit.PruningIsAmortised` | projects/01-url-shortener/src/url_shortener/ratelimit.py:128-135 | from any state the entries scanned are paid for by admissions and the initial excess |
| `RateLimit.ScansAtMostTwicePerAdmission` | projects/01-url-shortener/src/url_shortener/ratelimit.py:112-135 | over any run the prunes scan at most two entries per admitted check, and the dictionary stays within its threshold |
| `RateLimit.RemainingIsExact` | projects/01-url-shortener/src/url_shortener/ratelimit.py:112-118 | after an admission, exactly `remaining` further requests of the key at that instant are admitted and every later one is denied, whatever other keys do |
| `RateLimit.RetryAfterIsExact` | projects/01-url-shortener/src/url_shortener/ratelimit.py:104-110 | after a denial, until the key is next admitted, a request is admitted if and only if it comes at least `retry_after` later |
| `RateLimit.HeaderSecondsSuffice` | projects/01-url-shortener/src/url_shortener/ratelimit.py:55-64 | after a denial, until the key is next admitted and whatever other keys do, a request that waited the header's seconds is admitted and one that waited a second less is not |
| `Snowflake.AssembleIsSum` | projects/01-url-shortener/src/url_shortener/id_gen.py:84-86 | with the fields in range the shifts and ors add up to the weighted sum of the fields |
| `Snowflake.DecodeIsDivMod` | projects/01-url-shortener/src/url_shortener/id_gen.py:89-99 | the shifts and masks are quotient and remainder |
| `Snowflake.DecodeInvertsAssemble` | projects/01-url-shortener/src/url_shortener/id_gen.py:84-99 | unpacking recovers the three fields |
| `Snowflake.AssembleInvertsDecode` | projects/01-url-shortener/src/url_shortener/id_gen.py:84-99 | every number is the packing of its own fields, and fits 63 bits exactly when its timestamp fits 41 |
| `Snowflake.IdGenerator.constructor` | projects/01-url-shortener/src/url_shortener/id_gen.py:148-161 | a new generator stands at timestamp zero, sequence zero |
| `Snowflake.NewIdGenerator` | projects/01-url-shortener/src/url_shortener/id_gen.py:148-161 | construction is refused exactly for a node id outside 0..1023 |
| `Snowflake.FirstAtLeast` | projects/01-url-shortener/src/url_shortener/id_gen.py:182-192 | a spin stops at the first reading that reaches the bound |
| `Snowflake.SpinUntil` | projects/01-url-shortener/src/url_shortener/id_gen.py:182-192 | a clock loop stops at the first reading that reaches its bound, or runs out of readings |
| `Snowflake.IdGenerator.Advance` | projects/01-url-shortener/src/url_shortener/id_gen.py:179-198 | the branches and the two clock loops leave exactly the specified pair, and consume exactly the specified readings |
| `Snowflake.IdGenerator.NextId` | projects/01-url-shortener/src/url_shortener/id_gen.py:179-199 | a call returns the packing of that pair, or is still spinning when the readings end |
| `Snowflake.CallReturnsExactly` | projects/01-url-shortener/src/url_shortener/id_gen.py:179-199 | a call returns if and only if the readings hold a later millisecond, or the same one with sequence numbers left |
| `Snowflake.CallsAreExact` | projects/01-url-shortener/src/url_shortener/id_gen.py:179-199 | a call mints with the first usable reading, none before it being usable, and with the next sequence number in the same millisecond or zero in a later one |
| `Snowflake.SequencesRestart` | projects/01-url-shortener/src/url_shortener/id_gen.py:187-198 | along a run each id has the next sequence number of its millisecond, or starts a later one at zero |
| `Snowflake.MintsAreLater` | projects/01-url-shortener/src/url_shortener/id_gen.py:179-199 | every id minted after a state is later than it, carries a reading of its own call, and uses a fresh sequence number |
| `Snowflake.MintsKeepAdvancing` | projects/01-url-shortener/src/url_shortener/id_gen.py:179-199 | of any two ids of a run the later has the later (timestamp, sequence) pair, by at least the calls between them within a millisecond |
| `Snowflake.IdsCarryTheirReadings` | projects/01-url-shortener/src/url_shortener/id_gen.py:163-199 | every id of a run, the first included, decodes to a timestamp read during its own call, to its node and to its sequence number |
| `Snowflake.IdsStrictlyIncrease` | projects/01-url-shortener/src/url_shortener/id_gen.py:163-199 | for any readings, backward steps included, the ids strictly increase, and each decodes to a timestamp read during its own call and to its node |
| `Snowflake.MillisecondHolds4096` | projects/01-url-shortener/src/url_shortener/id_gen.py:187-193 | at most 4096 ids of a generator share a millisecond |
| `Snowflake.NodesNeverCollide` | projects/01-url-shortener/src/url_shortener/id_gen.py:139-143 | generators with different node ids never mint the same id |
| `Snowflake.SlugsReadBack` | projects/01-url-shortener/src/url_shortener/id_gen.py:205-212 | every slug of a run reads back to its id and has at most 11 characters while the timestamp fits 41 bits |
| `Snowflake.SlugsStrictlyIncrease` | projects/01-url-shortener/src/url_shortener/id_gen.py:201-212 | the slugs of one generator come out in shortlex order |
| `Base62.AlphabetAt` | projects/01-url-shortener/src/url_shortener/id_gen.py:57-58 | the character at every position of the alphabet is the one whose value is that position |
| `Base62.Base62Encode` | projects/01-url-shortener/src/url_shortener/id_gen.py:102-120 | the divmod loop prints the specified digits, and refuses exactly the negative numbers |
| `Base62.Base62Decode` | projects/01-url-shortener/src/url_shortener/id_gen.py:123-135 | the loop computes the specified value or refuses |
| `Base62.DecodeInvertsEncode` | projects/01-url-shortener/src/url_shortener/id_gen.py:102-135 | decoding inverts encoding for every natural number |
| `Base62.EncodeInvertsDecodeExactly` | projects/01-url-shortener/src/url_shortener/id_gen.py:102-135 | encoding inverts decoding if and only if the slug is "0" or is non-empty without a leading zero |
| `Base62.DecodeAcceptsExactly` | projects/01-url-shortener/src/url_shortener/id_gen.py:126-133 | exactly the strings over the alphabet are accepted |
| `Base62.LengthOfSlug` | projects/01-url-shortener/src/url_shortener/id_gen.py:114-120 | a slug fits k characters if and only if the number is below the k-th power of 62 |
| `Base62.ElevenCharactersSuffice` | projects/01-url-shortener/src/url_shortener/id_gen.py:102-120 | every id below 2^63 has at most 11 characters, and the largest has 11 |
| `Base62.SlugsAreOrdered` | projects/01-url-shortener/src/url_shortener/id_gen.py:57-58 | number order is shortlex order of slugs |
| `PathTrees.GetInsert` | packages/common-aws/src/common_aws/query.py:62-71 | storing at a path sets that path, empties those running through or below it, and changes no other |
| `PathTrees.OrderInsert` | packages/common-aws/src/common_aws/query.py:62-71 | storing at a path adds the next segment at the end of each dictionary on the way if it is new, removes the dictionary at its end, and changes no other key order |
| `PathTrees.InsertSolid` | packages/common-aws/src/common_aws/query.py:62-71 | storing never leaves an empty dictionary below the top |
| `QueryParams.ParseQueryParams` | packages/common-aws/src/common_aws/query.py:49-72 | the loop over the pairs computes the specified document or failure, skipping names without segments |
| `QueryParams.KeepCounting` | packages/common-aws/src/common_aws/query.py:59 | the filter keeps exactly the segments other than the empty one and "member", in order |
| `QueryParams.OneSegment` | packages/common-aws/src/common_aws/query.py:41-59 | exactly the empty segment and the word "member" are dropped |
| `QueryParams.MemberIsDropped` | packages/common-aws/src/common_aws/query.py:39-59 | a piece "member", or an empty one, anywhere in a name changes nothing |
| `QueryParams.MemberIsOptional` | packages/common-aws/src/common_aws/query.py:39-59 | a name with "member" inserted between any two pieces, or at an end, has the same path |
| `QueryParams.MemberListOfOne` | packages/common-aws/src/common_aws/query.py:49-94 | `A.member.1=v` is a list of one item |
| `QueryParams.BuildKeepsKeyOrder` | packages/common-aws/src/common_aws/query.py:57-71 | every dictionary has its keys in the order in which the parameters first named them there |
| `QueryParams.IndexMapsBecomeLists` | packages/common-aws/src/common_aws/query.py:88-94 | any dictionary of digit keys that collapses becomes the list of its collapsed children by number, keys of one number as first named, whether or not they count from one |
| `QueryParams.OtherMapsStayMaps` | packages/common-aws/src/common_aws/query.py:75-94 | any other dictionary that collapses becomes the map of its collapsed children |
| `QueryParams.BuildHoldsLastWords` | packages/common-aws/src/common_aws/query.py:57-71 | for all parameters, conflicting or not, a path holds what the last parameter on, through or below it says |
| `QueryParams.SortKeysSorts` | packages/common-aws/src/common_aws/query.py:93 | sorting lists every index key once, in numeric order, and keys of the same number in the order they were given |
| `QueryParams.PathsDetermine` | packages/common-aws/src/common_aws/query.py:57-71 | a tree without empty dictionaries is determined by what its paths hold |
| `QueryParams.CollapseShown` | packages/common-aws/src/common_aws/query.py:75-94 | collapsing the nested-dictionary form of a document gives the document, or fails if `int` refuses one of its indices |
| `QueryParams.ParseInvertsFlattening` | packages/common-aws/src/common_aws/query.py:49-94 | parsing any ordering of a document's 1-indexed flattening, with or without infixes, gives the document back, and fails only if a list is so long that `int` refuses an index |
| `QueryParams.ParsedDocumentsAreGood` | packages/common-aws/src/common_aws/query.py:49-94 | whatever the parameters, a result has string leaves, non-empty lists, and no empty or `isdigit`-keyed map below the top |
| `QueryParams.ParseProducesExactly` | packages/common-aws/src/common_aws/query.py:49-94 | a document whose indices `int` reads is the result of some parameters if and only if it is such a document |
| `QueryParams.ParseFailsExactly` | packages/common-aws/src/common_aws/query.py:88-94 | parsing fails if and only if somewhere below the top the parameters leave a dictionary with only `isdigit` keys, one of which `int` refuses |
| `QueryParams.OneIndexKey` | packages/common-aws/src/common_aws/query.py:88-94 | for one parameter `A.k=v` and any key: a map if the key is not digits, a list if `int` reads it, else a failure |
| `QueryHeap.Dict.constructor` | packages/common-aws/src/common_aws/query.py:68 | a fresh dictionary stands for the empty node |
| `QueryHeap.StoreLeaf` | packages/common-aws/src/common_aws/query.py:71 | assigning a value in place puts it at its key, keeping the key's place |
| `QueryHeap.AttachFresh` | packages/common-aws/src/common_aws/query.py:68-69 | linking a fresh dictionary in place puts the empty node at the key and changes nothing else |
| `QueryHeap.StoreBelow` | packages/common-aws/src/common_aws/query.py:64-66 | walking on in an existing dictionary changes only the tree below that key |
| `QueryHeap.Store` | packages/common-aws/src/common_aws/query.py:62-71 | the walk through dictionaries changed in place is the insertion on the tree they stand for |
| `QueryHeap.StorePair` | packages/common-aws/src/common_aws/query.py:58-71 | one parameter is stored in place as on the tree, and a name without segments is skipped |
| `QueryHeap.BuildInPlace` | packages/common-aws/src/common_aws/query.py:57-71 | the first pass leaves dictionaries that stand for the specified tree |
| `Mailboxes.Mailbox.constructor` | projects/03-realtime-pubsub/src/realtime_pubsub/backpressure.py:88-97 | a new mailbox is open and empty, with a capacity of at least one |
| `Mailboxes.Mailbox.Deliver` | projects/03-realtime-pubsub/src/realtime_pubsub/backpressure.py:116-144 | the queue, the flags and the outcome under each policy are the specified ones |
| `Mailboxes.Mailbox.Close` | projects/03-realtime-pubsub/src/realtime_pubsub/backpressure.py:146-156 | a close sets the flag and the event and keeps the buffer |
| `Mailboxes.Mailbox.TryRecv` | projects/03-realtime-pubsub/src/realtime_pubsub/backpressure.py:158-169 | the oldest message, or nothing, is taken |
| `Mailboxes.Mailbox.RecvUntilAwait` | projects/03-realtime-pubsub/src/realtime_pubsub/backpressure.py:179-197 | the receive loop up to its return or await, with its re-check |
| `Mailboxes.ReceivesTakeTheOldest` | projects/03-realtime-pubsub/src/realtime_pubsub/backpressure.py:179-183 | in every run a receive on a non-empty buffer takes the oldest message, answers it, and does not wait |
| `Mailboxes.EmptyReceivesEndOrPark` | projects/03-realtime-pubsub/src/realtime_pubsub/backpressure.py:185-197 | on an empty buffer a receive answers `None` if the mailbox is closed, and else parks with the event clear |
| `Mailboxes.PollsTakeTheOldest` | projects/03-realtime-pubsub/src/realtime_pubsub/backpressure.py:158-169 | a poll takes the oldest message if there is one, and does not disturb the receiver |
| `Mailboxes.ClosesClose` | projects/03-realtime-pubsub/src/realtime_pubsub/backpressure.py:146-156 | a close closes, keeps the buffer, and lets a parked receiver wake |
| `Mailboxes.ReceivesDrainTheBuffer` | projects/03-realtime-pubsub/src/realtime_pubsub/backpressure.py:171-186 | after a close every receive hands out the next buffered message, until there are none |
| `Mailboxes.DrainTakesExactlyTheBuffer` | projects/03-realtime-pubsub/src/realtime_pubsub/backpressure.py:171-186 | after a close the m-th receive answers the m-th buffered message, and `None` from the first one past the last |
| `Mailboxes.DeliveriesAnswer` | projects/03-realtime-pubsub/src/realtime_pubsub/backpressure.py:116-144 | a closed mailbox answers `Gone` under every policy and a full one by its policy; a delivered message is last in the buffer and rings the event; anything else leaves the mailbox as it was |
| `Mailboxes.ClosedMailboxesRefuse` | projects/03-realtime-pubsub/src/realtime_pubsub/backpressure.py:122-123 | over runs, after a close every message offered is refused and the buffer is left alone |
| `Mailboxes.StepMissesNothing` | projects/03-realtime-pubsub/src/realtime_pubsub/backpressure.py:179-197 | every step keeps: a receiver parked on a clear event has an empty, open mailbox |
| `Mailboxes.NoWakeUpIsLost` | projects/03-realtime-pubsub/src/realtime_pubsub/backpressure.py:116-197 | in every interleaving the buffer is bounded and no wake-up is lost |
| `Mailboxes.OfferKeepsOrder` | projects/03-realtime-pubsub/src/realtime_pubsub/backpressure.py:122-144 | a delivery keeps popped ++ buffered an in-order selection of the offered messages |
| `Mailboxes.OfferTallies` | projects/03-realtime-pubsub/src/realtime_pubsub/backpressure.py:122-144 | a delivery keeps, per message, offered = popped + buffered + shed + refused |
| `Mailboxes.StepIsAccounted` | projects/03-realtime-pubsub/src/realtime_pubsub/backpressure.py:116-197 | every step keeps order and tally together |
| `Mailboxes.NothingIsLostOrInvented` | projects/03-realtime-pubsub/src/realtime_pubsub/backpressure.py:88-169 | over every run: bounded, popped ++ buffered in order and without repetition among the offered, and every offered message popped, buffered, shed or refused |
| `Mailboxes.PolicyDecidesTheLoss` | projects/03-realtime-pubsub/src/realtime_pubsub/backpressure.py:122-144 | over every run nothing is shed under disconnect, nothing is refused before the close under the other policies, and an open mailbox loses nothing until more than `capacity` were offered |
| `Mailboxes.CloseThenDrain` | projects/03-realtime-pubsub/src/realtime_pubsub/backpressure.py:171-186 | after a close the buffer is handed out in order with nothing added or lost |
| `Mailboxes.EndComesAfterTheLastMessage` | projects/03-realtime-pubsub/src/realtime_pubsub/backpressure.py:171-186 | every `None` comes after everything buffered at the close has been handed out in order |
| `Mailboxes.OnlyEndsFollow` | projects/03-realtime-pubsub/src/realtime_pubsub/backpressure.py:171-186 | after a `None` every call answers `None`, and nothing more is handed out |
| `Mailboxes.EndNeedsAClose` | projects/03-realtime-pubsub/src/realtime_pubsub/backpressure.py:185-197 | an open mailbox never ends the stream, and a closed one never leaves its receiver asleep |
| `Mailboxes.UnreadBufferIs` | projects/03-realtime-pubsub/src/realtime_pubsub/backpressure.py:116-144 | without reads the buffer is the last `capacity` messages under drop-oldest and the first under the other policies |
| `Hubs.Snapshot` | projects/03-realtime-pubsub/src/realtime_pubsub/hub.py:93 | the snapshot lists every subscriber once |
| `Hubs.Hub.constructor` | projects/03-realtime-pubsub/src/realtime_pubsub/hub.py:51-52 | a new hub has no topic |
| `Hubs.Hub.Subscribe` | projects/03-realtime-pubsub/src/realtime_pubsub/hub.py:54-61 | the topic gains or replaces exactly that entry |
| `Hubs.Hub.Unsubscribe` | projects/03-realtime-pubsub/src/realtime_pubsub/hub.py:63-76 | exactly that entry goes, and the topic with its last subscriber |
| `Hubs.Hub.Publish` | projects/03-realtime-pubsub/src/realtime_pubsub/hub.py:78-120 | every subscriber's mailbox is that of one fan-out over a listing of all of them, the count is the number reached, and exactly the connections found gone are reaped |
| `Hubs.DeliverAlong` | projects/03-realtime-pubsub/src/realtime_pubsub/hub.py:95-104 | the delivery loop computes that fan-out |
| `Hubs.DeliverToAll` | projects/03-realtime-pubsub/src/realtime_pubsub/hub.py:93-104 | the snapshot and the deliveries are one fan-out over a listing of all subscribers |
| `Hubs.Hub.ReapAll` | projects/03-realtime-pubsub/src/realtime_pubsub/hub.py:106-114 | unsubscribing the wedged one by one removes exactly them from the topic |
| `Hubs.Hub.LeaveTopic` | projects/03-realtime-pubsub/src/realtime_pubsub/hub.py:128-132 | exactly the connection leaves the topic, and the topic goes with its last subscriber |
| `Hubs.Hub.Disconnect` | projects/03-realtime-pubsub/src/realtime_pubsub/hub.py:122-132 | the loop over all topics is the one-shot removal |
| `Hubs.OperationsLeaveNoEmptyTopic` | projects/03-realtime-pubsub/src/realtime_pubsub/hub.py:63-76 | every operation keeps the registry free of empty topics |
| `Hubs.SubscribeSetsExactly` | projects/03-realtime-pubsub/src/realtime_pubsub/hub.py:54-61 | a subscribe gives the connection that mailbox on that topic, replacing any other, and changes no one else |
| `Hubs.DisconnectLeavesNothingBehind` | projects/03-realtime-pubsub/src/realtime_pubsub/hub.py:122-132 | a disconnect removes the connection from every topic and nobody else |
| `Hubs.ReapRemovesExactly` | projects/03-realtime-pubsub/src/realtime_pubsub/hub.py:106-114 | a reap touches one topic and only the reaped |
| `Hubs.FanTouchesOnce` | projects/03-realtime-pubsub/src/realtime_pubsub/hub.py:97-104 | a fan-out offers the message to a listed connection once, to no other, and finds it wedged exactly when its own delivery says so |
| `Hubs.PublishCountsTheReached` | projects/03-realtime-pubsub/src/realtime_pubsub/hub.py:95-104 | with a mailbox each, the count returned is the number of mailboxes that, asked on their own, take the message |
| `Hubs.FanOrderIsIrrelevant` | projects/03-realtime-pubsub/src/realtime_pubsub/hub.py:93-104 | with a mailbox each, a publish leaves the same mailboxes, count and reaped connections in whatever order it visits the subscribers |
| `Hubs.StepIsSolo` | projects/03-realtime-pubsub/src/realtime_pubsub/hub.py:54-132 | what any event does to a connection's share of the hub is what it would do to that connection alone |
| `Hubs.ConnectionStandsAlone` | projects/03-realtime-pubsub/src/realtime_pubsub/hub.py:54-132 | in every run a connection with its own mailbox gets the outcomes and messages it would get alone |
| `Hubs.RunsAgreeForOneConnection` | projects/03-realtime-pubsub/src/realtime_pubsub/hub.py:78-120 | two runs that agree on what concerns a connection give it the same outcomes and messages, whatever the others' capacities, policies, reads, closures or reaping |
| `Ingest.BuildStatement` | projects/01-url-shortener/src/url_shortener/ingest.py:188-194 | the placeholders number the arguments 1..4n in reading order, and row r, column c is field c of event r |
| `Ingest.StatementIsDetermined` | projects/01-url-shortener/src/url_shortener/ingest.py:188-194 | that description leaves no freedom: two statements for a batch are equal |
| `Ingest.StepConserves` | projects/01-url-shortener/src/url_shortener/ingest.py:138-205 | every step keeps: accepted = flushed ++ batch ++ queued, and the gauge counts the queued |
| `Ingest.StepKeepsBatches` | projects/01-url-shortener/src/url_shortener/ingest.py:162-166 | every step keeps the batch below `max_batch` between flushes and every statement within 1 to `max_batch` rows |
| `Ingest.StepKeepsStop` | projects/01-url-shortener/src/url_shortener/ingest.py:168-176 | every step keeps the stop sentinel posted once, after the close, with nothing behind it |
| `Ingest.AcceptedClicksAreConserved` | projects/01-url-shortener/src/url_shortener/ingest.py:89-205 | at every await of every run the accepted clicks are, in order, those flushed, in the batch and queued; the gauge is exact; statements have 1 to `max_batch` rows |
| `Ingest.FlushedDrainLosesNothing` | projects/01-url-shortener/src/url_shortener/shutdown.py:58-74 | a drain that reports `FLUSHED` put every accepted click through some flushed batch and left nothing behind |
| `Ingest.ClicksAreShedExactly` | projects/01-url-shortener/src/url_shortener/ingest.py:89-103 | in every run a click is shed exactly when the sink is closed or holds its capacity, and else goes to the end of the queue |
| `Ingest.OffersAreAcceptedOrShed` | projects/01-url-shortener/src/url_shortener/ingest.py:89-103 | over every run the queue is within its capacity, and the offered clicks are as many as the accepted and the shed, which are all among them |
| `Ingest.TicksFlushTheBatch` | projects/01-url-shortener/src/url_shortener/ingest.py:146-153 | a tick with something in the batch leads to one statement with exactly that batch |
| `Ingest.TakenClicksAreBatched` | projects/01-url-shortener/src/url_shortener/ingest.py:162-166 | a click taken off the queue joins the batch, which is flushed at that moment exactly if it is full |
| `Ingest.TheSentinelEndsTheConsumer` | projects/01-url-shortener/src/url_shortener/ingest.py:155-160 | the sentinel flushes what is left and ends the consumer |
| `Ingest.StatementsDecideTheConsumer` | projects/01-url-shortener/src/url_shortener/ingest.py:196-205 | a statement that is acknowledged, or refused by the database, lets the consumer go on, and anything else ends it |
| `Ingest.DrainsReport` | projects/01-url-shortener/src/url_shortener/shutdown.py:58-74 | a drain reports `FLUSHED` exactly for a consumer that returned, `FAILED` for one that raised, and `TIMED_OUT` when its budget is spent |
| `Ingest.DrainsCanFlush` | projects/01-url-shortener/src/url_shortener/ingest.py:168-176 | from every state of the invariant in which a drain has begun and the consumer is alive, some continuation ends in `FLUSHED`: neither a full queue nor a statement in flight blocks a shutdown for good |
| `Ingest.ClickIngestor.constructor` | projects/01-url-shortener/src/url_shortener/ingest.py:119-131 | a new ingestor starts from the initial state |
| `Ingest.ClickIngestor.Accept` | projects/01-url-shortener/src/url_shortener/ingest.py:89-103 | a click is accepted if and only if the sink is open and has room, and then is last in the queue and counted; else nothing changes |
| `Ingest.ClickIngestor.Close` | projects/01-url-shortener/src/url_shortener/ingest.py:175 | closing takes exactly the `StartDrain` step |
| `Ingest.ClickIngestor.PutStop` | projects/01-url-shortener/src/url_shortener/ingest.py:176 | posting the sentinel takes exactly the `PostStop` step |
| `Ingest.ClickIngestor.AfterGet` | projects/01-url-shortener/src/url_shortener/ingest.py:155-166 | the code after the queue hands over an item takes exactly the `Take` step |
| `Ingest.ClickIngestor.BeginFlushing` | projects/01-url-shortener/src/url_shortener/ingest.py:185-197 | an empty batch issues nothing; any other issues the one statement that inserts it |
| `Ingest.ClickIngestor.AfterExecute` | projects/01-url-shortener/src/url_shortener/ingest.py:196-205 | whatever the statement's fate the batch is recorded and cleared, and the rows reported are those acknowledged |
| `Base64Url.B64IsDigits` | packages/common-aws/src/common_aws/pagination.py:107-108 | stripping takes off the padding and nothing else |
| `Base64Url.PaddingFills` | packages/common-aws/src/common_aws/pagination.py:111-112 | `-len % 4` puts back exactly the stripped padding |
| `Base64Url.ScanDigits` | packages/common-aws/src/common_aws/pagination.py:111-116 | the decoder reads a padded encoding back to its bytes |
| `Base64Url.EncodingHasNoDot` | packages/common-aws/src/common_aws/pagination.py:107-108 | an encoding has no dot, and is empty only for the empty string |
| `Base64Url.DecodeInvertsEncode` | packages/common-aws/src/common_aws/pagination.py:107-116 | decoding inverts encoding for every byte string |
| `Base64Url.AlphabetAt` | packages/common-aws/src/common_aws/pagination.py:107-108 | every six-bit value is written as the character at its position in the url-safe alphabet of RFC 4648 |
| `Base64Url.ThreeBytesAreFourDigits` | packages/common-aws/src/common_aws/pagination.py:107-108 | three bytes are written as the four six-bit digits of their 24-bit number, and then the rest follows |
| `Base64Url.LastByteIsTwoDigits` | packages/common-aws/src/common_aws/pagination.py:107-108 | a last byte is written as two digits, with zeros for the missing bits |
| `Base64Url.LastBytesAreThreeDigits` | packages/common-aws/src/common_aws/pagination.py:107-108 | two last bytes are written as three digits, with zeros for the missing bits |
| `Base64Url.BothSpellingsAreRead` | packages/common-aws/src/common_aws/pagination.py:111-116 | a string spelled with the standard alphabet decodes like its url-safe spelling |
| `Base64Url.UrlSafeIsReadUnlessOneIsLeft` | packages/common-aws/src/common_aws/pagination.py:111-116 | of the strings in the url-safe alphabet exactly those are refused that leave one character alone |
| `Base64Url.EncodeInvertsDecodeExactly` | packages/common-aws/src/common_aws/pagination.py:107-116 | a string is the encoding of what it decodes to if and only if it is in the url-safe alphabet, leaves no character alone, and has zeros in the bits that carry no data |
| `Base64Url.UnknownCharactersAreSkipped` | packages/common-aws/src/common_aws/pagination.py:111-116 | four characters outside the alphabet in front of any string change nothing about what it decodes to |
| `Cursor.TokenParts` | packages/common-aws/src/common_aws/pagination.py:51-55 | a token splits at its first dot into the encodings of its body and of the body's tag |
| `Cursor.DecodeInvertsEncodeInTime` | packages/common-aws/src/common_aws/pagination.py:51-96 | decoding a cursor returns its payload if no TTL is set, or its stamp, the whole part of the time it was made, is at most the TTL old and at most 60 seconds ahead; else it is refused |
| `Cursor.AcceptsEverySpellingOfTheTag` | packages/common-aws/src/common_aws/pagination.py:57-96 | of the tokens whose first half reads as the body of a cursor in time, exactly those are accepted whose second half reads as its tag, and of these exactly the one with both halves canonical is the minted token |
| `Cursor.HalfTokensAreRefused` | packages/common-aws/src/common_aws/pagination.py:64-66 | a token without a dot, or with nothing before or after its first dot, is refused |
| `Cursor.AnotherTokenIsAccepted` | packages/common-aws/src/common_aws/pagination.py:64-77 | for every cursor, one accepted token that is not the minted one |

## Left out

- Redis, Postgres, asyncpg and asyncio internals: an atomic map, an append-only table and run-to-await steps stand for them.
- Time as such: TTL lengths, jitter, the flush interval and the shutdown budget are steps that may happen at any moment.
- Fairness: that a parked task can finish is proved, that the event loop will schedule it is not.
- `get_or_rebuild`, `resolve_slug`, `recv`, `run` and `drain_ingestor` as single methods: each is split at its awaits, into the class methods above and the steps of a transition system.
- CacheAside.PositiveAnswersAreRows: starts with no task running and a Redis whose positive entries, if any, are rows, because an arbitrary leftover entry need not match the table.
- Float rounding in `ratelimit.py`: `now` and `period` are integer nanoseconds already, so a positive period that rounds to zero is not modelled, nor is the division by 1e9 that reports `retry_after`.
- Hubs.Snapshot: lists the subscribers in any order where the source keeps insertion order.
- Hubs.Hub.Publish: fans out along any listing where the source takes insertion order, which with a mailbox each makes no difference (`Hubs.FanOrderIsIrrelevant`).
- `subscriber_count`, `topic_count` and `subscription_count` of the hub: they only read sizes.
- QueryHeap.Store: recurses once per segment where the source loops, and the second pass (`_collapse_value`) is on values, as the source builds new ones there.
- What `str.isdigit` and `int` make of text beyond plain ASCII numerals, and from what length on `int` refuses it: both are parameters, trusted only for plain numerals.
- QueryParams.ParseProducesExactly: speaks of documents whose list indices `int` reads, because a longer list could only come from keys that are not plain numerals.
- Form decoding, `require_action` and the XML rendering of `query.py`: library calls and short tables.
- JSON and HMAC in `pagination.py`: parameters of the codec, trusted only for reading back what was written and for non-empty results.
- The text of the insert statement: placeholders are numbers, not `$n` strings.
- The lock in `id_gen.py`, and `_now_ms`: calls are taken one at a time, from readings given as input.
- Cache key prefixes and the payload format of cache entries: an entry is decoded or undecodable.
- `create_link` beyond its insert and delete: URL validation, custom slugs and the response.
- Authentication, URL validation, ARNs, batching, dispatch, wire formats, error tables, metrics (other than the ingest gauge), logging, the site and the tooling: they would add only easy members.
- The token bucket, sliding window, Redis limiter and cluster projects: their deciding functions are not implemented in the repository.
