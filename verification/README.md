# Verified model of the Sonarr anime bridge

This project models the stateful core of a Go service that caches AniList year data in SQLite,
keeps decoded years resident, paces its upstream calls, turns an AniBridge mapping file into a
TVDB resolver and filters a year's shows for a response, together with the Python script that
promotes its release images. Everything is proved with Dafny; `dafny verify dfyconfig.toml`
checks the whole project.

## How it is laid out

| file | models |
|---|---|
| `DecodedYears.dfy` | the bounded LRU of decoded rows: the value each critical section computes, and the object with its map, list, byte counter and eviction loop |
| `DecodedYearProtocol.dfy` | readers, Set, Clear, Prune, Close and external row edits interleaved step by step over that cache and its generation fence |
| `DecodedYearHistory.dfy` | what "most recently used" means over every history of lookups, admissions and invalidations, and that every run of the protocol is such a history |
| `DecodeGates.dfy` | the per-year decode gates over the same runs, and the gate objects themselves |
| `Retention.dfy` | debounced access times, the flush worker, and pruning as snapshot then DELETE |
| `JsonTokens.dfy`, `GoStrings.dfy` | documents as trees and as token streams, skipping a value, and the few Go string operations the parsers use |
| `MappingMeaning.dfy` | what a mapping document means, with no iteration order |
| `MappingParser.dfy`, `MappingReference.dfy`, `MappingParity.dfy` | the streaming parser, the tree-decoding reference, and their agreement |
| `Pacing.dfy`, `Pagination.dfy` | the AniList admission gate and cooldown; batched pagination |
| `SingleFlight.dfy`, `Backoff.dfy`, `BackgroundTasks.dfy` | coordinated fetches, the failure table, background admission and shutdown |
| `Shows.dfy`, `Filters.dfy`, `Pipeline.dfy` | the show record, the in-place filters, and the request pipeline |
| `MappingLoader.dfy` | the mapping file, its sidecar and the recorded source over runs of loads |
| `ReleaseTags.dfy`, `Promotion.dfy` | release tags and versions; promotion as registry writes that may stop early |
| `Basics.dfy` | options, bytes, 64-bit wrapping, sums over sets |

Objects whose methods update fields are classes (`DecodedYearCache`, `DecodeGateTable`,
`AccessTimes`, `Decoder`, `Client`, `FailureTable`, `Scheduler`, `Loader`, `Registry`), and each
of their methods is proved equal to a function of the old state. What interleaves is a step
system over the same functions: a run is a list of enabled steps from an initial state, and the
theorems speak of every run. Beside each such function stand lemmas that say what it does in terms
of its inputs' own fields, without calling it. One step is one critical section, one SQL statement with the
timestamp it writes, or one channel operation. Clocks, cancellation, upstream answers, disk
contents and jitter are inputs of the steps.

## Expectations that fail, and when they hold

A reader of the code could expect each of the following. Each is shown to fail by a concrete run
or input, or settled by the exact condition under which it holds, or both.

* *A gate record exists only while somebody waits for its token or holds it.* A reader that gives
  up waiting keeps its reference for one more step (`DecodeGates.RecordWithoutWaiterOrHolder`);
  the record exists exactly while some reader holds a reference (`DecodeGates.RecordIffOccupied`).
  Any cancelled request can reach this.
* *The target with the most episodes is chosen.* Totals are int64. One that wraps below zero
  loses to the starting value, so nothing is chosen (`MappingParity.OverflowHidesTarget`,
  `MappingParity.OverflowHidesEntry`), and one that wraps to a small positive number loses to a
  shorter target (`MappingParity.WrappedTotalLoses`). The maximum of the int64 totals is chosen
  exactly when it is a season one or not negative (`MappingMeaning.ChoiceIsMaximumIff`), and the
  maximum of the true totals whenever each of them fits (`MappingMeaning.ChoiceIsTrueMaximum`).
  Both parsers behave alike. Only a dataset with absurd ranges reaches this.
* *A row hit after a prune's cutoff survives it.* The hit may have been debounced
  (`Retention.DebouncedHitIsNotSpared`). At every retention, each row hit at least k seconds after
  the cutoff is spared in every run exactly when the debounce interval is at most k + 1 seconds
  (`Retention.PruneSparesIff`). The program keeps 14 days and can reach this.
* *The n-th failure waits min(base*2^(n-1), ceiling).* Doubling wraps when twice the ceiling
  exceeds int64 (`Backoff.BackoffIff`). The program's own ceiling is five minutes and only tests
  set another, so it never reaches this.
* *A cooldown lasts as long as advertised.* A wait longer than a `time.Duration` is cut to the
  largest one (`Pacing.DeadlineIsAdvertisedWithinReach`). Upstream's headers alone decide this.
* *Once Wait has returned nil, nothing runs any more.* `StartBackground` reopens admission and adds
  its workers only later, so quiet lasts exactly until a step of it
  (`BackgroundTasks.QuietForeverIff`), and one already under way at shutdown adds workers
  afterwards (`BackgroundTasks.StartInProgressOutlivesWait`). The program calls the two once and in
  sequence (cmd/server/main.go:151 and 199), so it never reaches this.
* *A mapping served for a URL was sent by that URL.* When a sidecar write fails and the recorded
  source is then forgotten, by a restart, a fresh loader or a load of another path, nothing
  remembers whose the cached file is (`MappingLoader.LostSidecarServesForeignBytes`). The next
  undisturbed load is safe for every URL exactly when each parseable file has a named owner that
  sent it, or two that disagree (`MappingLoader.NextLoadIsOwnIff`). A whole run, restarts included,
  is safe when no lost sidecar outlives the recorded source
  (`MappingLoader.ServedWasSentByItsUrl`, this direction only). The program reaches the failure
  when it restarts with another configured URL after a failed sidecar write.

## Model

| member | source | states |
|---|---|---|
| DecodedYears.EvictedIsLongestFit | internal/cache/decoded_year.go:187-203 | the entries that survive an admit are the longest most-recently-used prefix that fits both limits beside the new entry |
| DecodedYears.LookupKeepsBounded | internal/cache/decoded_year.go:140-155 | a lookup keeps one entry a year, both limits, positive sizes and every other year; under the current generation it leaves an entry of its year only for these bytes |
| DecodedYears.AdmitKeepsBounded | internal/cache/decoded_year.go:187-203 | under the four guards the new entry is in front and both limits hold; otherwise nothing changes |
| DecodedYears.AdmittedIsNew | internal/cache/decoded_year.go:191-200 | what stays beside an admitted entry was resident before and is of another year |
| DecodedYears.InvalidateKeepsBounded | internal/cache/decoded_year.go:213-228 | an invalidation raises the generation and drops exactly the entries of its year, or all |
| DecodedYears.DecodedYearCache.Lookup | internal/cache/decoded_year.go:140-155 | the object's map, list and byte total move together, to exactly the specified new state and answer |
| DecodedYears.DecodedYearCache.MakeRoom | internal/cache/decoded_year.go:197-199 | the eviction loop terminates without asking an empty list for its back and leaves the specified list |
| DecodedYears.DecodedYearCache.Admit | internal/cache/decoded_year.go:187-203 | admission under closed, stale-generation and oversize guards keeps map and list in bijection and `bytes` the sum of sizes |
| DecodedYears.DecodedYearCache.Remove | internal/cache/decoded_year.go:205-210 | unlinking keeps map, list and byte counter in agreement |
| DecodedYears.DecodedYearCache.Invalidate | internal/cache/decoded_year.go:213-228 | generation and closed flag advance with the entries that go |
| DecodedYearHistory.StandsBeforeIffUsedLater | internal/cache/decoded_year.go:140-228 | over every history of lookups, admissions and invalidations a resident year stands before another exactly when its last hit or admission came later |
| DecodedYearHistory.EvictionTakesTheLeastRecent | internal/cache/decoded_year.go:187-203 | over every history, whatever an admission evicts had been used before every other year it leaves |
| DecodedYearHistory.RunIsHistory | internal/cache/decoded_year.go:92-228 | what a run of readers and mutations leaves resident is the replay of its critical sections, each lookup, admission and invalidation with its own arguments |
| DecodedYearHistory.RunKeepsRecency | internal/cache/decoded_year.go:92-228 | so in every run of the protocol too the list is in order of last use |
| DecodedYearProtocol.CacheIsTransparent | internal/cache/decoded_year.go:92-138 | in every interleaving, row edits included, a finished read failed exactly if its query failed, it gave up at the gate, or one of its looks at the context reported a cancellation; otherwise it answers absence, the decode error or the shows that decoding gives for the row its own read step found |
| DecodedYearProtocol.HitSkipsDecode | internal/cache/decoded_year.go:101-128 | a reader decodes exactly when no resident entry has its row, at both lookups, and then it decodes that row |
| DecodedYearProtocol.ReaderKeepsWhatItHas | internal/cache/decoded_year.go:92-128 | a reader captures the current generation before its read and keeps it, its row and its gate |
| DecodedYearProtocol.CommitsTakeEffect | internal/cache/cache.go:369-398 | each commit changes exactly its own rows |
| DecodedYearProtocol.ResidentEntriesAreCurrent | internal/cache/cache.go:369-398 | without external edits a resident entry differs from its stored row only while a mutation of that year has committed and not yet invalidated |
| DecodedYearProtocol.StaleReaderIsInert | internal/cache/decoded_year.go:140-203 | a reader holding an outdated generation neither inserts nor removes an entry |
| DecodedYearProtocol.ClosedStaysEmpty | internal/cache/cache.go:309-316 | in every run from the start with a Close in it, nothing is resident at any later point |
| DecodedYearProtocol.TransparentStep | internal/cache/decoded_year.go:92-155 | every step keeps: entries are the decoding of their bytes, pending answers are the plain read's |
| DecodedYearProtocol.FenceStep | internal/cache/cache.go:369-398 | every step but an external edit keeps the generation fence over resident entries and readers under way |
| DecodedYearProtocol.CommitKeepsFence | internal/cache/cache.go:369-383 | a commit keeps the fence because its mutation is in flight until it invalidates |
| DecodedYearProtocol.PublishKeepsFence | internal/cache/decoded_year.go:213-228 | an invalidation keeps it because it drops the entries and outdates every reader's generation |
| DecodeGates.OneDecodePerYear | internal/cache/decoded_year.go:109-128 | in every run at most one reader of a year holds its token |
| DecodeGates.ReturnNeverBlocks | internal/cache/decoded_year.go:179-184 | the channel of capacity one is empty whenever a token is given back |
| DecodeGates.RecordIffOccupied | internal/cache/decoded_year.go:157-185 | a year's gate record exists exactly while a reader of it is inside, so none remains when nobody is |
| DecodeGates.RecordWithoutWaiterOrHolder | internal/cache/decoded_year.go:165-178 | a run in which a record has neither waiter nor holder |
| DecodeGates.GatesStep | internal/cache/decoded_year.go:157-185 | every step keeps reference counts, tokens and table in agreement with the readers |
| DecodeGates.GateMovesMatch | internal/cache/decoded_year.go:157-185 | a captured gate is still its year's gate, so each protocol move is the gate objects' own method with its precondition met |
| DecodeGates.DecodeGateTable.Enter | internal/cache/decoded_year.go:158-166 | finds or creates the year's gate and counts the reference, touching no other year's |
| DecodeGates.DecodeGateTable.Unref | internal/cache/decoded_year.go:167-174 | drops a reference and the record with the last one |
| Retention.PruneSparesRecentHits | internal/cache/cache.go:473-508 | if the debounce interval is at most k + 1 seconds, a run leaves no prune that would delete a row hit k seconds after its cutoff |
| Retention.PruneSparesIff | internal/cache/cache.go:473-547 | at every number of days kept, every prune of every run spares each row hit at least k seconds after its cutoff if and only if the debounce interval is at most k + 1 seconds |
| Retention.ScheduledIsNeverLost | internal/cache/cache.go:526-636 | in every run the stored hit or the pending write of an existing row is at least the last scheduled time |
| Retention.DebouncedHitIsNotSpared | internal/cache/cache.go:526-547 | at every number of days kept and for every k with k + 2 at most the interval, a run in which a hit k seconds newer than the cutoff loses its row |
| Retention.PruneDeletesStaleRows | internal/cache/cache.go:369-508 | the other half: a prune deletes every row inserted and last hit before its cutoff, whatever stores, flushes and prunes came in between |
| Retention.StoringIsNoHit | internal/cache/cache.go:369-383 | in every run a stored hit is no later than the row's initial time, its insertion and the hits served for it |
| Retention.FlushEmptiesPending | internal/cache/cache.go:569-636 | a flush on its own writes every pending hit and leaves none |
| Retention.FlushSettlesItsBatch | internal/cache/cache.go:569-630 | a flushed row gets the later of its times, and a pending hit goes exactly when no newer one came |
| Retention.HitIsPendingIff | internal/cache/cache.go:526-540 | a hit becomes pending exactly when the debounce interval since the last scheduled one is over |
| Retention.StoringIsFresh | internal/cache/cache.go:369-380 | a stored row is fresh as of now and no other row changes |
| Retention.CutoffAndClear | internal/cache/cache.go:385-398 | a prune's cutoff is its days before its start, and a clear leaves neither rows nor times |
| Retention.SafeStep | internal/cache/cache.go:369-636 | every step of hits, flushes, prunes, sets and clears keeps the invariant behind both |
| Retention.AccessTimes.QueueLastHit | internal/cache/cache.go:526-547 | the debounced update of the scheduled and pending maps |
| Retention.AccessTimes.Acknowledge | internal/cache/cache.go:624-630 | a flush forgets exactly the hits it wrote, in any map order, and keeps those that came later |
| Retention.AccessTimes.ProtectedYears | internal/cache/cache.go:479-486 | exactly the years with a pending hit at or after the cutoff |
| JsonTokens.SkipIsExact | internal/mapping/parse.go:116-145 | skipping consumes exactly one value, and rejects it exactly when its nesting plus the enclosing depth exceeds 10,000 |
| JsonTokens.SkipToken | internal/mapping/parse.go:118-145 | the explicit stack of delimiters runs as the recursive description does |
| JsonTokens.SkipValue | internal/mapping/parse.go:147-156 | the same from the value's first token |
| MappingParity.CheckParserParity | internal/mapping/parse.go:19-103 | for every document tree the streaming parser and the reference both reject or yield the same two maps |
| MappingMeaning.MapsHoldTheLastChoices | internal/mapping/parse.go:50-70 | in every accepted document each map holds, for every ID, the choice of the last root member under its own prefix whose text reads as that ID and whose value has a choice |
| MappingMeaning.AcceptedIff | internal/mapping/parse.go:19-103 | a document is accepted exactly when it is an object whose named members have no failed choice and whose other members are not too deep |
| MappingParser.ParseAnibridgeJSON | internal/mapping/parse.go:19-103 | the token loop computes the document's meaning and reads nothing past it |
| MappingParser.ParseDatasetMetadata | internal/mapping/parse.go:158-204 | metadata is consumed whole, rejected only for its depth, and yields the last text of each field and whether a field had a foreign type |
| MappingMeaning.LastTextWins | internal/mapping/parse.go:174-200 | each metadata field kept is the text of the last member under its name that has one |
| MappingParser.ParseEntry | internal/mapping/parse.go:50-91 | one root property has the effect its key and value mean |
| MappingParser.ExtractTVDB | internal/mapping/parse.go:212-268 | the surviving descriptors' choice, whatever the map order, with the value consumed |
| MappingParser.SummarizeTargets | internal/mapping/parse.go:224-248 | after the loop each usable descriptor has the summary of its last occurrence |
| MappingParser.ChooseSummary | internal/mapping/parse.go:249-267 | the running best over the map is the order-free choice |
| MappingParser.ScanEpisodeRanges | internal/mapping/parse.go:272-317 | fatal exactly for depth; otherwise the table's total or a semantic error |
| MappingReference.ReferenceParse | internal/mapping/parse_reference_test.go:16-95 | the tree-decoding reference computes the same meaning |
| MappingReference.ReferenceExtractTVDB | internal/mapping/parse_reference_test.go:110-159 | the reference's choice is the order-free choice |
| MappingReference.ReferenceCountSourceEpisodes | internal/mapping/parse_reference_test.go:161-200 | the reference's total is the table's |
| MappingReference.ReferenceRangeCountAgrees | internal/mapping/parse.go:319-336 | reading a range with Cut and with SplitN agree on every string |
| MappingMeaning.TotalRanges | internal/mapping/parse.go:305-316 | the wrapped sum over a set of ranges is the same in every order, and an error exactly when one range is malformed |
| MappingMeaning.RunningBestIsChoice | internal/mapping/parse.go:249-267 | whatever order was taken, the best at the end is the choice |
| MappingMeaning.BestIsUnique | internal/mapping/parse.go:257-265 | season one, more episodes, lower ID leaves only one best |
| MappingMeaning.ChoiceIsMaximumIff | internal/mapping/parse.go:249-267 | the maximum of the int64 totals is chosen exactly when it is a season one or not negative |
| MappingMeaning.ChoiceIsTrueMaximum | internal/mapping/parse.go:224-316 | when every surviving table spans at most the largest int64, the choice is an error exactly for a semantic error and otherwise the maximum of the true totals |
| MappingParity.WrappedTotalLoses | internal/mapping/parse.go:249-316 | for any two IDs an entry whose target with the most episodes wraps and loses to one with five |
| MappingParity.OverflowHidesTarget | internal/mapping/parse.go:249-316 | for every ID an entry value whose only target is well formed and not chosen |
| MappingParity.OverflowHidesEntry | internal/mapping/parse.go:55-68 | for every MAL ID and target ID a whole document, accepted and mapping nothing, whose one entry has a well-formed target |
| MappingParity.DescriptorRoundTrip | internal/mapping/parse.go:231-239 | a descriptor written for an ID and scope reads back as them |
| MappingMeaning.ShapeIsTarget | internal/mapping/parse.go:231-239 | a descriptor of the right shape is usable exactly when its number is positive |
| MappingMeaning.TargetHasShape | internal/mapping/parse.go:231-239 | nothing of another shape is usable |
| MappingMeaning.EpisodeRange | internal/mapping/parse.go:319-336 | a key with a dash spans both its ends, or one episode when it ends in the dash, and is malformed otherwise |
| MappingMeaning.SingleEpisode | internal/mapping/parse.go:319-336 | a key without a dash is one episode if it is a positive number |
| MappingMeaning.LastDuplicateWins | internal/mapping/parse.go:224-244 | the last of several equal keys decides |
| MappingMeaning.OnlyObjectsChoose | internal/mapping/parse.go:213-223 | null has no target and anything else but an object of allowed depth is an error |
| Pacing.WindowHoldsAtMost27 | internal/anilist/anilist.go:241-275 | any 60-second window of any concurrent run, both ends included, holds at most 27 admissions |
| Pacing.WindowHoldsAtMostLimit | internal/anilist/anilist.go:241-286 | while an advertised limit L sets the interval a half-open 60-second window holds at most L |
| Pacing.CooldownIsRespected | internal/anilist/anilist.go:241-323 | every admission after a limiting response comes no earlier than the deadline it set |
| Pacing.CooldownNeverDecreases | internal/anilist/anilist.go:316-318 | the cooldown deadline never moves back along any run |
| Pacing.DeadlineIsAdvertisedWithinReach | internal/anilist/anilist.go:292-330 | the deadline is the later usable of reset and Retry-After, or a minute; no earlier than advertised exactly within a time.Duration of now |
| Pacing.FailedCallAdmitsNothing | internal/anilist/anilist.go:241-275 | a throttle call that fails or is cancelled leaves the pacing state as it was and admits nothing |
| Pacing.PollAdmitsIff | internal/anilist/anilist.go:241-275 | a poll is admitted exactly when the interval, the cooldown and the caller's retry time are over, told the exact remaining wait otherwise, and refused beyond two minutes |
| Pacing.RetryTimeIsRespected | internal/anilist/anilist.go:241-275 | in every run no call is admitted before its own retry time |
| Pacing.ObservationTouchesWhatItSays | internal/anilist/anilist.go:279-323 | only a 429 or an exhausted allowance moves the cooldown and only a positive limit the interval |
| Pacing.AllowanceIsNotWasted | internal/anilist/anilist.go:283-286 | the interval is no longer than the advertised allowance asks, within two nanoseconds |
| Pacing.Client.Poll | internal/anilist/anilist.go:241-275 | one turn of the throttle loop: verdict and new state |
| Pacing.Client.ObserveAllowance | internal/anilist/anilist.go:279-323 | interval, cooldown and the bound check from one response's headers |
| Pagination.FetchYear | internal/anilist/anilist.go:334-402 | succeeds exactly when some page up to 100 is the first without a successor and passes its batch checks uncancelled; then returns pages 1..T in order with ceil(T/4) requests |
| Pagination.FetchBothWays | internal/anilist/anilist.go:334-402 | whenever batching succeeds its result is that of one page at a time |
| Pagination.FetchConsistentYear | internal/anilist/anilist.go:334-402 | on a consistent dataset of P pages it succeeds exactly for P up to 100, with ceil(P/4) batches and all the media |
| Pagination.CheckBatch | internal/anilist/anilist.go:368-384 | a batch is accepted exactly when its four pages are whole, in order, and empty after the last |
| Pagination.DoRequest | internal/anilist/anilist.go:405-494 | at most five attempts; a body exactly when one arrives after only retryable failures |
| Pagination.SequentialToEnd | internal/anilist/anilist.go:334-402 | the one-page loop ends at the first page without a successor with the concatenation so far |
| Pagination.EndsFieldByField | internal/anilist/anilist.go:368-384 | a fetch ends at a page exactly when every page of its batches is whole and the one asked for, the first without a successor is that page, and those behind it are empty |
| SingleFlight.OneFetchPerYear | internal/scheduler/scheduler.go:473-581 | in every interleaving at most one caller of a year leads |
| SingleFlight.LeaderPublishes | internal/scheduler/scheduler.go:495-528 | however a leader leaves, panic included, its flight is closed with its outcome and its slot free; in the run it succeeded exactly if its check saw a fresh decodable row or it wrote one, and reports a fetch exactly if it wrote |
| SingleFlight.SightsAreTheSkips | internal/scheduler/scheduler.go:530-544 | a caller skips the fetch exactly when some step of the run showed it a fresh decodable row |
| SingleFlight.WaiterGetsLeaderOutcome | internal/scheduler/scheduler.go:478-492 | a released waiter has exactly its leader's outcome |
| SingleFlight.FailedAttemptWritesNothing | internal/scheduler/scheduler.go:530-580 | a leader writes one row when it reports a fetch and none otherwise |
| SingleFlight.AttemptWaitsForRetryTime | internal/scheduler/scheduler.go:545-560 | no upstream attempt starts before the recorded retry time while the entry stays |
| SingleFlight.FailureTableIsBounded | internal/scheduler/scheduler.go:594-631 | the failure table never exceeds 256 years in any run |
| SingleFlight.CoordinatedStep | internal/scheduler/scheduler.go:473-581 | every step keeps slots, flights, leaders and waiters in agreement |
| SingleFlight.SettleTellsTheTable | internal/scheduler/scheduler.go:495-511 | when a leader settles, a success clears its year, a failed uncancelled attempt of the run is recorded with its retry time, and anything else leaves the table alone |
| SingleFlight.LeaderGoesOn | internal/scheduler/scheduler.go:530-580 | check, cooldown, upstream answer and write each decide how a leader goes on |
| SingleFlight.JoinsIffInFlight | internal/scheduler/scheduler.go:478-492 | a caller waits for the flight of its year if there is one and leads otherwise |
| Backoff.BackoffIff | internal/scheduler/scheduler.go:594-631 | for any positive base and ceiling, n failures give min(base*2^(n-1), ceiling) for every n exactly when twice the ceiling fits in 64 bits |
| Backoff.DelayIsCappedDoubling | internal/scheduler/scheduler.go:607-613 | the closed form of the delay after n failures |
| Backoff.TrackedDelay | internal/scheduler/scheduler.go:594-637 | whatever other years do, a year that stays in the table has the delay of its own number of failures |
| Backoff.TrackedYearBacksOff | internal/scheduler/scheduler.go:594-637 | over every history a year that stays in the table from its first failure has the capped doubling of its failure count, when twice the effective ceiling fits in 64 bits |
| Backoff.RecordedStaysBounded | internal/scheduler/scheduler.go:615-630 | recording keeps the bound and other years' surviving entries, and the failed year is to be retried its delay from now |
| Backoff.OnlyOldEntriesLeave | internal/scheduler/scheduler.go:615-629 | another entry leaves only if expired for a ceiling or as an oldest live one of a full table |
| Backoff.ExpiredEntriesLeave | internal/scheduler/scheduler.go:615-619 | whatever expired for a ceiling leaves |
| Backoff.DefaultBounds | internal/scheduler/scheduler.go:599-606 | an unusable base is fifteen seconds, an unusable ceiling five minutes |
| Backoff.HeldBackUntilRetry | internal/scheduler/scheduler.go:583-592 | a year is held back exactly until its retry time |
| Backoff.FailureTable.RecordFetchFailure | internal/scheduler/scheduler.go:594-631 | defaults, doubling, expiry and eviction of an oldest entry |
| Backoff.FailureTable.FindOldest | internal/scheduler/scheduler.go:621-628 | an entry with the earliest retry time, whatever the map order |
| Backoff.FailureTable.FetchCooldownRemaining | internal/scheduler/scheduler.go:583-592 | the time left until the recorded retry, or zero |
| BackgroundTasks.OneTaskPerYear | internal/scheduler/scheduler.go:430-458 | at most one reserved background task a year in every run |
| BackgroundTasks.ReservedOnlyWhileUnfinished | internal/scheduler/scheduler.go:430-458 | a reserved year has an unfinished task, and the wait group counts exactly the admitted unfinished work |
| BackgroundTasks.WaitMeansQuiet | internal/scheduler/scheduler.go:888-902 | once Wait has returned nil nothing runs and admission is closed, if no start of background work overlaps or follows the shutdown |
| BackgroundTasks.StartInProgressOutlivesWait | internal/scheduler/scheduler.go:110-116 | a run without a later start in which one already under way adds workers after Wait has returned nil |
| BackgroundTasks.QuietForeverIff | internal/scheduler/scheduler.go:398-464 | quiet lasts through later steps exactly when none of them is part of a start of background work |
| BackgroundTasks.OpenSchedulerStartsTheTask | internal/scheduler/scheduler.go:430-458 | in every run an open scheduler has one task for a year after being asked for it, started anew exactly when there was none |
| BackgroundTasks.ScheduleIff | internal/scheduler/scheduler.go:430-458 | rejection exactly when closed or done, coalescing exactly when reserved |
| BackgroundTasks.Scheduler.ScheduleYearFetch | internal/scheduler/scheduler.go:430-458 | rejection, coalescing or reservation, with its effect on the year set and the wait group |
| BackgroundTasks.Scheduler.StartBackgroundFetch | internal/scheduler/scheduler.go:398-418 | admission exactly when not closed |
| Filters.FilterBySeason | internal/filter/filter.go:80-120 | in-place compaction leaves the in-season subsequence in order and the rest of the array alone |
| Filters.FilterWithStats | internal/filter/filter.go:23-40 | one pass leaves the watchable subsequence and counts short and tagged shows, short first |
| Filters.FindExcludedTag | internal/filter/filter.go:42-52 | finds a non-empty excluded tag exactly when the show carries one |
| Filters.Compact | internal/filter/filter.go:54-78 | the plain filters' loop leaves the order-preserving subsequence |
| Filters.FilterTwice | internal/scheduler/scheduler.go:329-347 | filtering one after another is filtering by both at once |
| Pipeline.Process | internal/scheduler/scheduler.go:309-385 | the answers are those of the eligible shows among current and overflow shows, in order, and each stage's drop count is the number of shows failing there first; slices of one array included, whatever their lengths |
| Pipeline.Serve | internal/cache/decoded_year.go:129-133 | a request working on its own copies leaves the resident arrays untouched |
| Pipeline.WinterOverflow | internal/scheduler/scheduler.go:314-327 | the loop with its seen set, in-place filter and append builds the described candidate list |
| Pipeline.OverflowIsEachNewDecemberOnce | internal/scheduler/scheduler.go:314-327 | overflow is exactly the first prior-year December winter show of each new ID, never twice, never lost to the season filter |
| Pipeline.EligibleIffEveryFilterPasses | internal/filter/filter.go:23-130 | a show survives exactly when it passes every enabled filter, each said field by field |
| Pipeline.EveryShowIsCounted | internal/scheduler/scheduler.go:336-354 | drops, unresolved and resolved shows add up to all candidates |
| Pipeline.ResolveBatch | internal/mapping/resolve.go:95-108 | every ID maps to the resolution and title of its last occurrence |
| Pipeline.ResponseShows | internal/scheduler/scheduler.go:667-675 | answers row by row from the batch; none without a mapping |
| Pipeline.RowTakesItsLastOccurrence | internal/mapping/resolve.go:95-108 | a row with a repeated ID answers what the last such row resolves to |
| Pipeline.MalBeforeAniList | internal/mapping/resolve.go:55-84 | MAL decides when it knows the show, AniList only otherwise, neither without a mapping |
| Pipeline.EnglishBeforeRomaji | internal/anilist/anilist.go:114-122 | the title is the English one if not empty, else the romaji one if present, else one that reads back as the ID |
| Pipeline.Append | internal/scheduler/scheduler.go:314-327 | appending writes in place within the capacity and copies beyond it |
| MappingLoader.Loader.Load | internal/mapping/loader.go:63-96 | a success returns and records the parse of the bytes it names, a failure or a cancellation seen first or last records nothing, disk writes are only this load's parseable download while still wanted; undisturbed it shows exactly the described bytes, metadata and disposition |
| MappingLoader.Loader.LoadFrom | internal/mapping/loader.go:102-228 | ownership, HEAD and download in order: where the bytes come from and what is written |
| MappingLoader.Loader.Local | internal/mapping/loader.go:230-266 | succeeds exactly when the inspected bytes are the recorded ones or parse and were read twice alike |
| MappingLoader.Loader.ReuseDownload | internal/mapping/loader.go:173-190 | a download of the recorded bytes is reused, with the file repaired unless it holds them |
| MappingLoader.Loader.UseDownload | internal/mapping/loader.go:191-227 | checksum-matched file, parsed download or fallback, each with its writes |
| MappingLoader.RecordedIsLastSuccess | internal/mapping/loader.go:63-96 | over every run, restarts included, the recorded source is that of the last success since the last restart and the parse of its digest's bytes |
| MappingLoader.ForeignFileIsNeverServed | internal/mapping/loader.go:115-123 | helper beside Load, read off one step of a run: a file known to be another URL's is never served |
| MappingLoader.LoadsWriteParseableDownloads | internal/mapping/loader.go:174-224 | helper beside Load, read off one step of a run: a file a load changes becomes its parseable download |
| MappingLoader.FilesStayParseable | internal/mapping/loader.go:174-224 | without edits every mapping file stays parseable |
| MappingLoader.FileHoldsWhatWasServed | internal/mapping/loader.go:174-227 | helper beside Load, read off one step of a run: an undisturbed success leaves the file holding exactly what it served |
| MappingLoader.SidecarDescribesTheDownload | internal/mapping/loader.go:174-227 | a saved sidecar has the loaded URL and the download's own ETag and checksum |
| MappingLoader.SavedSidecarSparesTheDownload | internal/mapping/loader.go:115-189 | after a load that downloaded and saved, the next undisturbed load with HEAD reporting that ETag serves the same bytes without a download, reused, or loaded again after a restart |
| MappingLoader.SameChecksumKeepsTheFile | internal/mapping/loader.go:191-201 | an unchanged checksum keeps the cached file and refreshes only the sidecar |
| MappingLoader.ReuseIsOfTheRecordedSource | internal/mapping/loader.go:98-100 | reuse is only of the source recorded for this path, URL and bytes |
| MappingLoader.ServedWasSentByItsUrl | internal/mapping/loader.go:115-227 | over every run without edits, restarts included, in which no lost sidecar outlives the recorded source, what is served for a URL was sent by that URL |
| MappingLoader.NextLoadIsOwnIff | internal/mapping/loader.go:102-170 | the next undisturbed load of any path and URL serves only what its URL sent if and only if every parseable file has one named owner that sent it, or several |
| MappingLoader.LostSidecarServesForeignBytes | internal/mapping/loader.go:63-169 | a run, by restart or by another path, with every load undisturbed and its outcome the determined one, in which URL a is served bytes nothing ever sent for it |
| ReleaseTags.TagIsItsVersion | scripts/release_image.py:19-23 | a stable tag and its version determine each other: parse and render are inverse, leading zeros refused |
| ReleaseTags.StableReleases | scripts/release_image.py:47-52 | exactly the published stable tags, each once, versions strictly rising |
| ReleaseTags.LaterNumbersAreLater | scripts/release_image.py:19-23 | versions compare number by number |
| Promotion.EligibleIffHighestOfTrack | scripts/release_image.py:192-202 | a tag may claim an alias exactly when it is published and no published version of that track is higher |
| Promotion.LatestImpliesMajorAndMinor | scripts/release_image.py:192-202 | eligibility for latest implies eligibility for major and minor |
| Promotion.Highest | scripts/release_image.py:202 | the tag of the highest version among those given |
| Promotion.ReadVersionIsFaithful | scripts/release_image.py:19-23 | no two tags share a version and no alias reads as one, which the registry theorems ask of a reader |
| Promotion.AliasNamesItsTrack | scripts/release_image.py:197-201 | an alias name determines its track and the version part the track fixes |
| Promotion.TagExtendsItsAliases | scripts/release_image.py:196-201 | the aliases of a version are its tag without the patch and without the minor, and latest |
| Promotion.TopsMeans | scripts/release_image.py:197-202 | topping a track, number by number |
| Promotion.FitCandidateIsPromoted | scripts/release_image.py:211-236 | an unstopped promotion of a fit candidate writes its full tag and every alias of a track it tops that has nothing or nothing newer, and leaves newer ones |
| Promotion.UnfitCandidateChangesNothing | scripts/release_image.py:211-231 | an unfit candidate or an alias out of its track changes nothing |
| Promotion.FullTagsNeverMove | scripts/release_image.py:211-236 | over every run a full-version tag keeps its digest |
| Promotion.VersionsNeverDecrease | scripts/release_image.py:216-236 | over every run no tag comes to point at an older version, and none disappears |
| Promotion.AliasGetsHighestOfItsTrack | scripts/release_image.py:211-236 | whatever a promotion changes is its new full tag or an alias whose published track it tops |
| Promotion.RegistryStaysCoherent | scripts/release_image.py:211-236 | however early promotions stop, aliases stay in their track and everything has its full tag |
| Promotion.FullTagComesFirst | scripts/release_image.py:232-235 | no alias is written before the full tag |
| Promotion.Registry.Promote | scripts/release_image.py:211-236 | all checks precede the first write, and a stop after k writes leaves exactly the first k of the plan |
| Promotion.Registry.InspectAliases | scripts/release_image.py:216-231 | the preflight loop keeps the writable aliases and refuses all when one must be |

## Left out

- SQLite itself: connection options, WAL, busy retries and vacuuming; a statement either takes effect or does nothing.
- JSON lexing, number syntax, zstd and SHA-256 computation; the parser starts from the tokens of a document tree and a digest stands for its bytes.
- Context cancellation and reader failures inside the mapping parser; a document that breaks off is not a tree.
- `decodedYearSize` constants: any positive function of the row.
- Wrap-around of the 64-bit generation counter: it is an unbounded number.
- Retry jitter and the delays between attempts: inputs, with no fairness promised; the sleep inside `throttle` is a step between two polls.
- `strings.EqualFold`, `strings.TrimSpace`, path validation and the URL policy: arbitrary functions given to the model.
- `time.Now` inside `IsWithinMonths` is read once per request instead of once per show, as the month that three months from now falls in.
- Allowance arithmetic in floating point: the interval may be one nanosecond off the exact quotient either way.
- HTTP handlers, health and debug endpoints, logging, key-diff reports, seen-mapping discovery, cache statistics, `NeedsRefresh` and `HasYears`: they would add only easy members.
- Registry inspection and attestation checks in `scripts/release_image.py`: one input says whether they pass.
- A gate object's channel is its token count; which waiter a channel wakes is not modelled.
- Retention.PruneDeletesStaleRows: asks for stored times after the Unix epoch, because a row stored at time zero has no last hit to keep when it is stored again (`Retention.ZeroTimeIsNoHit`).
- Retention.StoringIsNoHit: the same.
- Pipeline.Serve: does not model nested slices of a show (tags, relations), which the original shares read-only; rows are values here.
- MappingLoader.Loader.Load: the wait for the loader's gate is one look at the context; loads are serialised by the calls themselves.
