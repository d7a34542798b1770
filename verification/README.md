# What the sidecar promises, modelled and proved

The sidecar embeds and reranks text on one GPU. Most of it is plumbing, but a handful of components carry arguments
that are easy to get wrong: two counters that decide whether a memory figure is publishable, one variable that says
which directory of compiled programs a session reads, a cache and its lock-free mirror, a layout that must not change
any embedding, a calendar that decides what gets deleted, three separately written walks over one image grid, a hash-map
fold, and a scatter into a flat buffer. This project models those components in Dafny and proves what they promise, for
every input and every interleaving.

`dafny verify dfyconfig.toml` checks the whole project.

## How it is laid out

| file | what it models |
|---|---|
| `BuildWindows.dfy` | concurrent build accounting as a step machine (`BuildWindows`) and the ledger of verdicts (`VramLedger`) |
| `CacheLease.dfy` | the compiled-model cache path under any interleaving of embed, rerank and unload threads (`CacheLease`), and the directory names (`CacheSlug`) |
| `LruCache.dfy`, `Canary.dfy`, `EngineLifecycle.dfy` | the rung cache, the build-time canary, and the life of the embedding engine with its lock-free mirror |
| `LockWait.dfy` | waiting for a held engine, the wedge verdict and the watchdog |
| `PinnedLayout.dfy`, `Reranker.dfy` | the padded, batched, sorted paths against the plain per-text map |
| `CivilCalendar.dfy`, `DayFolders.dfy` | era arithmetic against a calendar that steps one day at a time, and the log rules that rest on it |
| `PatchGrid.dfy`, `PositionIds.dfy`, `SmartResize.dfy` | the Qwen3-VL patch grid, token spans and position ids, target size |
| `SparseHead.dfy`, `OutputSelection.dfy`, `MoeDispatch.dfy` | the lexical head, choosing session outputs, mixture-of-experts routing and dispatch |
| `StableSort.dfy`, `DecimalText.dfy`, `Division.dfy`, `RowMajor.dfy`, `Wrappers.dfy` | shared: the sort's contract, decimal text, division by a variable, row-major tensors, `Option` and `Result` |

Concurrency is modelled as machines whose threads each have a program counter and whose atomic steps interleave freely;
a run is any finite sequence of steps, and the theorems speak of every state of every run. Objects the code updates in
place (`RungCache`, `DaySegments`, the ledger, the log root) are classes whose methods are proved against functions on
their contents. Arithmetic on `f32` and `f64` is over exact reals, or an opaque function where its value is not the
point (`sigmoid`, an expert's output, an embedding). Calls into ONNX Runtime, tokenizers and tensor kernels are
parameters that may answer, answer short, or fail.

## Where the code and its documentation part

The model follows the code. In each of these cases the stated promise is false as stated; the project gives a concrete
run or input where it fails and proves exactly when it holds.

1. **A measured build delta can contain another build's bytes** (src/vram.rs:41-47 and 93-104, src/provider.rs:84). The
   before-sample is an argument, evaluated before `open` reads the mark, so a build that finishes in that gap is counted
   into its successor. Run: `BuildWindows.DeltaCanIncludeTheGap`. What a figure contains: `BuildWindows.MeasuredDelta`.
   Exactly when: `BuildWindows.ExactForEveryDeltaIff`, a condition on the schedule alone.
2. **A published figure does not say that the build was alone for its whole window** (src/vram.rs:20-21 and 46): another
   build can be counted in beside it, with its bump of the mark still to come. Run:
   `BuildWindows.AttributedBesideAnotherBuild`. Exactly when a sampled window is attributed:
   `BuildWindows.AttributedIff`. Exactly when an attributed one was alone: `BuildWindows.AttributedBuildWasAloneIff`; in
   either case nobody else allocated in it: `BuildWindows.AttributedBuildAllocatedAlone`.
3. **A rerank session's first launch can read the embedder's directory** (src/compile_cache.rs:191-194,
   src/inference.rs:433-449). When the request that built the session returns an error before its kernel launch (a
   tokenizer error is enough), the session stays filed and unlaunched, the lease is gone, and the next request takes
   none. Run: `CacheLease.AbandonedBuildReadsAnotherSlice`. Exactly when: `CacheLease.RerankFirstLaunch`; the guarantee
   while no build is abandoned that way: `CacheLease.FirstLaunchReadsOwnSlice`.
4. **A query can build an engine, and can move the cap without building one** (src/inference.rs:177-189, src/state.rs:58-73).
   Its cap is read before the mutex. It can inherit the cap of a build that then fails: `EngineLifecycle.QueryCanBuild`;
   exactly when a request builds: `EngineLifecycle.RequestBuildsIff`. And a query that finds its inherited rung makes it
   the newest again, so it moves the committed cap back from wherever another request took it meanwhile:
   `EngineLifecycle.QueryCanMoveTheMirror`; exactly when: `EngineLifecycle.HitMovesTheMirrorIff`.
5. **`insert` over a resident cap drops the old engine without handing it back** (src/engine_cache.rs:44-48). Trace:
   `LruCache.InsertOverAResidentLosesIt`. Exactly when nothing is lost: `LruCache.NothingLostIffInsertsFollowMisses`,
   which is how the one caller inserts.
6. **"Every build so far overlapped another" can be said of a build that was alone** (src/vram.rs:167-170). History:
   `VramLedger.OverlapSentenceCanBeFalse`. Exactly when the sentence is true: `VramLedger.OverlapSentenceIsTrueIff`; when
   each reason is given: `VramLedger.Ledger.UnavailableReason`.
7. **A short rerank pass is served** (src/inference.rs:465-498). The embed path re-runs a short pass; on the rerank path
   the realigned list always has one slot per row, so the row check before unpinning cannot fire, missing rows become
   scores of zero and later rows shift. Pinned run: `Reranker.ShortPinnedPassIsWrong`. What each document gets:
   `Reranker.SlotOfDocument`. Exactly when the answer is right, pinned or not: `Reranker.RightForEveryLogitIff`, and for
   a short last chunk `Reranker.ShortTailIsHarmlessIff`.
8. **`smart_resize` can exceed `max_pixels`, and with it the image-token limit, in both scaling branches**
   (vendor-fastembed/src/models/qwen3.rs:233-241): reducing, when a side is clamped up to one block; enlarging, whenever
   no block grid that reaches `min_pixels` on both sides fits under the ceiling, which the token limit can push below
   `min_pixels`. Inputs: `SmartResize.ReducedCanExceedTheMaximum`, `SmartResize.EnlargedCanExceedTheMaximum`,
   `SmartResize.TokenLimitCanBeExceeded`. Exactly when it stays within, on the inputs and without the square root:
   `SmartResize.StaysWithinIff`, used for the tokens in `SmartResize.EveryResizedImageIsPatched`.
9. **Output selection is by name "never by position"** (the name of its test, vendor-fastembed/src/bgem3_dual/mod.rs:258;
   name first, then rank: mod.rs:222-224) only while at most one name matches. Input: `OutputSelection.TwoTokenOutputs`.
   Exactly when: `OutputSelection.OrderDoesNotDecide` and, for the other half,
   `OutputSelection.OrderDecidesBetweenTwoNames`.
10. **A waiter can refuse a healthy holder as wedged** (src/inference.rs:592-594 and 616-623, src/wedge.rs:156-160). A look
   with no stamp to go by counts as a hold nobody stamped and falls back to the waiter's own wait and the running ceiling.
   It has none when the record is being read or written at that moment, in a hand-over (the new owner takes the engine
   before it stamps, the old one clears its stamp before it lets go: src/inference.rs:302-320), and for as long as an
   unload holds the engine, because `drain_engines` never stamps (src/introspection.rs:407-426). Looks:
   `LockWait.MissedStampRefusesAHealthyHolder`. Exactly when: `LockWait.HealthyHolderIsRefusedIff` at one look,
   `LockWait.HealthyWaitIsRefusedIff` over a whole wait, `LockWait.WedgeVerdictIsTrueIff` for any holder.

## Model

| member | source | states |
|---|---|---|
| `BuildWindows.InFlightIsTheNumberOfLiveWindows` | src/vram.rs:93-121 | in every reachable state of any number of interleaved builds the in-flight counter is the number of live windows, panics included |
| `BuildWindows.AttributedIff` | src/vram.rs:61-121 | a window with both samples is closed `Measured` or `NoGrowth` if and only if no other window was live at its count-in and nobody bumped the mark between its own read of it and its close, for every interleaving of fewer than 2^64 steps |
| `BuildWindows.VerdictIff` | src/vram.rs:61-78 | each of the four verdicts exactly under its condition: not sampled if and only if a sample is missing; otherwise overlapped if and only if another window was live at the count-in or the mark was bumped; otherwise the growth, or no growth |
| `BuildWindows.AttributedBuildWasAloneIff` | src/vram.rs:41-47 | a window so closed was alone from its count-in to its close if and only if at the close no other thread is counted in with its bump still to come |
| `BuildWindows.CompanyStillOwes` | src/vram.rs:93-104 | whoever is live beside such a window, at any moment of it, has not bumped the mark yet and still has not at the close |
| `BuildWindows.AttributedBesideAnotherBuild` | src/vram.rs:93-104 | a legal run of nine steps that publishes 5 bytes while a second build is counted in before the allocation and still at the close |
| `BuildWindows.AttributedBuildAllocatedAlone` | src/vram.rs:61-121 | such a window had no other build allocating from its count-in to its close |
| `BuildWindows.OverlappedMeansCompany` | src/vram.rs:61-114 | `Overlapped` is never a false alarm: another window was live at some moment between the mark read and the close |
| `BuildWindows.MeasuredDelta` | src/provider.rs:83-86 | a measured figure is the build's own bytes, plus what other builds moved between the before-sample and the count-in, plus what moved outside any build, and nothing else |
| `BuildWindows.DeltaIsExact` | src/vram.rs:61-78 | in a given run the figure is the build's own allocation if and only if the bytes of the gap and of the outside cancel |
| `BuildWindows.ExactForEveryDeltaIff` | src/provider.rs:83-86 | a schedule makes the figure exact for every choice of the bytes moved if and only if no other build allocates between the before-sample and the count-in and nothing outside a build moves before the after-sample |
| `BuildWindows.DeltaCanIncludeTheGap` | src/provider.rs:84 | a legal run of two builds that publishes 8 bytes for an allocation of 3 |
| `VramLedger.NoBuildIsLost` | src/vram.rs:138-153 | every recorded build is published for one of the two engines or counted in exactly one discard counter, and a figure exists exactly when its engine was ever measured |
| `VramLedger.Ledger.Record` | src/vram.rs:138-153 | the field an engine's verdict belongs to changes by exactly that verdict, every other field stays, and the five fields always equal what the history says they should be |
| `VramLedger.Ledger.UnavailableReason` | src/vram.rs:158-180 | which reason is given is determined by the history, an equivalence for each of the five answers |
| `VramLedger.OverlapSentenceIsTrueIff` | src/vram.rs:167-170 | where the ledger says every build overlapped another, that is true if and only if no build was discarded for showing no growth |
| `VramLedger.OverlapSentenceCanBeFalse` | src/vram.rs:167-170 | a history of two builds where it is said and false |
| `CacheLease.FirstLaunchReadsOwnSlice` | src/compile_cache.rs:191-225 | with a cache configured, whichever threads interleave and panic, the first kernel launch of every session reads the slice of its own engine and shape, provided no rerank request returned an error between building and launching |
| `CacheLease.EmbedFirstLaunchReadsOwnSlice` | src/inference.rs:319-341 | an embedding session's first launch is always under its own lease, because the canary is that launch |
| `CacheLease.LeasedLaunchReadsOwnSlice` | src/compile_cache.rs:203-225 | every launch made while the lease is held reads the holder's slice |
| `CacheLease.RerankFirstLaunch` | src/inference.rs:433-449 | a rerank session's first launch reads its own slice if and only if no embed claim set the path since the session was built |
| `CacheLease.AbandonedBuildReadsAnotherSlice` | src/inference.rs:436-449 | a legal run in which a rerank session's first launch reads the embedder's slice |
| `CacheLease.NoDeadlock` | src/compile_cache.rs:191-192 | in every reachable state with somebody inside, some thread can take a working step that brings it nearer to leaving: the two engine mutexes and the lease never wait in a cycle |
| `CacheLease.InvAt` | src/compile_cache.rs:162-225 | each mutex is held by exactly the thread whose program counter says so, and the path names the job of whoever has claimed and set it, in every reachable state |
| `CacheLease.UnloadsEmptyTheirSlot` | src/introspection.rs:407-455 | a full unload leaves nothing in the slot it locked, a scoped one takes exactly the rungs it names, neither touches the other engine, and a poisoned slot is emptied by whoever takes its mutex next |
| `CacheSlug.NoTwoSlicesShareADirectory` | src/compile_cache.rs:129-158 | two slices have the same directory if and only if engine, batch and length are the same |
| `CacheSlug.DirectoriesAreSpelled` | src/compile_cache.rs:129-158 | the two spellings of a directory, with and without a pinned batch |
| `LruCache.RungCache.constructor` | src/engine_cache.rs:22-27 | an empty cache of at least one rung |
| `LruCache.RungCache.GetMut` | src/engine_cache.rs:31-39 | finds the engine of the cap if there is one and makes it the most recently used, leaving the others in order |
| `LruCache.RungCache.Insert` | src/engine_cache.rs:44-48 | the engine becomes the most recently used of its cap; caps stay distinct and within capacity; what made room is handed back |
| `LruCache.RungCache.Drain` | src/engine_cache.rs:51-53 | hands back everything and leaves nothing |
| `LruCache.RungCache.Remove` | src/engine_cache.rs:57-63 | hands back exactly the named rung and keeps the others in order |
| `LruCache.StepRefines` | src/engine_cache.rs:31-63 | each list operation is one step of an abstract cache that only knows when each cap was last used |
| `LruCache.TraceRefines` | src/engine_cache.rs:31-63 | over any operation trace the list is that abstract least-recently-used cache: same entries in order of last use, same entries handed back, every eviction the oldest |
| `LruCache.TraceFits` | src/engine_cache.rs:22-48 | along any trace caps stay unique and the size within capacity |
| `LruCache.EnginesAreConserved` | src/engine_cache.rs:44-63 | every engine inserted is resident, handed back, or was overwritten in place, counted exactly |
| `LruCache.NothingLostIffInsertsFollowMisses` | src/engine_cache.rs:44-48 | every engine ever inserted is resident or was handed back if and only if every insert followed a miss |
| `LruCache.InsertOverAResidentLosesIt` | src/engine_cache.rs:44-48 | two inserts at one cap after which the first engine is neither resident nor was ever handed back |
| `EngineLifecycle.MirrorFollowsTheCache` | src/bookkeeping.rs:36-61 | over all runs of requests, failed builds, panics, heals and unloads: while the mutex is free and unpoisoned the committed cap is the most recently used resident rung, 0 if none; during a build it is the cap being built |
| `EngineLifecycle.RunningRungIsResident` | src/inference.rs:342-360 | a pass always finds its rung, so the `expect` never fires, and the mirror names it |
| `EngineLifecycle.ResidentEnginesPassedTheirCanary` | src/inference.rs:331-334 | every resident engine was built for its own rung and passed its canary in the build that produced it; one engine per cap, within capacity |
| `EngineLifecycle.ResidentIffFiledAndKept` | src/inference.rs:319-341 | in every run a rung is resident if and only if a build filed it and no eviction, unload or heal has taken it since |
| `EngineLifecycle.RequestBuildsIff` | src/inference.rs:205-209 | a request builds if and only if the cap it settled on at arrival was never filed or has since been evicted, unloaded or healed away |
| `EngineLifecycle.ArrivalSettlesTheCap` | src/inference.rs:190-195 | a document, and a query that arrives with no cap committed, settles on its own requested cap; any other query on the committed one |
| `EngineLifecycle.UndisturbedQueryNeverBuilds` | src/inference.rs:190-209 | a query that arrives while the committed rung is resident finds that rung unless a step in between takes that rung away |
| `EngineLifecycle.HitMovesTheMirrorIff` | src/inference.rs:339-341 | a request that finds its engine moves the committed cap if and only if that cap no longer is the one it settled on when it takes the mutex; for a query that inherited, if and only if it was moved since the arrival |
| `EngineLifecycle.QueryCanMoveTheMirror` | src/inference.rs:187-189 | a legal run in which a query that builds nothing moves the committed cap from 256 to 1024 |
| `EngineLifecycle.QueryCanBuild` | src/inference.rs:205-212 | a legal run in which a query is the one that has to build |
| `EngineLifecycle.InvAt` | src/inference.rs:298-347 | what every reachable state keeps of mutex, poison, cache, mirror and holder, from the first step on |
| `Canary.CanaryCheck` | src/canary.rs:124-173 | the first of at most three runs at 0.99 or more is reported with its cosine and number; the error says whether the last run was rejected, or the cosine of the last run that scored |
| `Canary.LoadValidated` | src/canary.rs:208-251 | an engine is handed out if and only if the first loads and passes its canary, or the cache is configured, the first loads and fails it and the second loads and passes it; which one, what the error is, and at most two loads, one wipe and six runs |
| `LockWait.LockOrRefuse` | src/inference.rs:595-645 | the wait ends at the first look that is free, poisoned, wedged or out of patience, and not before: a wedged refusal only of a holder past its ceiling, the other only at the limit of a bounded wait and with the time waited; behind healthy holders the first look at or past the limit, and none without a limit |
| `LockWait.HealthyHoldersAreWaitedOut` | src/inference.rs:632-642 | behind stamped holders within their ceilings every look before the caller's limit is undecided and every look from it on refuses with exactly the time waited |
| `LockWait.WedgeVerdictIsTrueIff` | src/inference.rs:616-631 | the wedge verdict is true of the real holder if and only if there was a stamp to read, or the waiter's wait and the holder's hold stand on the same side of their ceilings |
| `LockWait.HealthyHolderIsRefusedIff` | src/inference.rs:616-631 | a holder within its own ceiling, request or unload, is refused as wedged if and only if the waiter is past the running ceiling and has no stamp to go by: it did not get at the record, or the owner never stamps, has not stamped yet, or has cleared its stamp already |
| `LockWait.HealthyWaitIsRefusedIff` | src/inference.rs:616-631 | behind any succession of healthy holders a patient waiter is refused if and only if some look past the running ceiling had no stamp to go by |
| `LockWait.BoundedWaitEnds` | src/inference.rs:632-643 | with a limit and a positive poll, whatever the holders do, the deciding look comes less than one sleep after the limit, within one turn more than the sleeps that fit into it |
| `LockWait.BoundedWaitIsDecided` | src/inference.rs:632-643 | every stretch of three looks more than the sleeps that fit into the limit is decided |
| `LockWait.FixedHolderBoundsTheWait` | src/inference.rs:616-631 | with unbounded patience one stamped holder bounds the wait by its ceiling plus one sleep |
| `LockWait.UnstampedHoldIsBounded` | src/inference.rs:616-631 | a hold nobody stamps is refused less than one sleep after the waiter has waited the running ceiling, within a bounded number of turns |
| `LockWait.MissedStampRefusesAHealthyHolder` | src/wedge.rs:156-160 | five healthy holders refused as wedged: a build and a pass whose stamp one look missed, the two halves of a hand-over, and an unload; not refused at the same moment with the stamp read |
| `LockWait.SuccessiveHoldersCanStarve` | src/wedge.rs:203-211 | no such bound exists against successive holders: a starving stretch of any length |
| `LockWait.WatchdogAgreesWithTheWaiter` | src/wedge.rs:229-238 | the watchdog acts on exactly the holders a waiter refuses as wedged, and exits exactly when the opt-in delay past the ceiling has gone by too |
| `LockWait.Watch` | src/wedge.rs:254-303 | the first tick of each unbroken run of ticks that report an engine is announced, once, until an exit, which happens at the first engine due one; another holder wedged at the very next tick continues the run and is not announced |
| `PinnedLayout.PinShape` | src/inference.rs:141-161 | the expanded list and the recorded rows are those of the block layout |
| `PinnedLayout.TextsAreAtTheirPositions` | src/inference.rs:141-161 | text i stands at row (i/(b-1))*b + 1 + i%(b-1) of the layout, which is its recorded row, and no two texts share one |
| `PinnedLayout.OtherRowsAreRulers` | src/inference.rs:150-158 | every row of the layout that is no text's row holds the ruler |
| `PinnedLayout.EveryChunkIsFullAndRulerLed` | src/inference.rs:132-139 | every chunk the embedder forms over the layout is full and led by a ruler, one per b-1 texts |
| `PinnedLayout.AdvertisedCountIsTheLargestSingleBatch` | src/inference.rs:55-62 | a non-empty list is one batch if and only if it is no longer than the advertised number, pinned or not |
| `PinnedLayout.Embed` | vendor-fastembed/src/bgem3_dual/mod.rs:112-126 | chunks answered in order and concatenated, the first error and a batch of zero refused |
| `PinnedLayout.PassAnswersIff` | vendor-fastembed/src/bgem3_dual/mod.rs:112-126 | a run answers if and only if the batch is positive and no chunk errs |
| `PinnedLayout.EmbedSettling` | src/inference.rs:102-130 | the first of at most three runs that is not short, never a short one, an error when there is none; one raw run where no retry is due |
| `PinnedLayout.UnpinRows` | src/inference.rs:166-175 | refused exactly when a recorded row is missing, otherwise the recorded rows in order |
| `PinnedLayout.SettledIsRowWise` | src/inference.rs:82-130 | what a settled run serves is each text's own row |
| `PinnedLayout.PinnedPathIsRowWise` | src/inference.rs:238-264 | for every text list, batch of at least two and row-wise engine, the pinned path returns each text's own row in order, and answers exactly when one of three runs of the layout is full |
| `PinnedLayout.OneFullRunIsServed` | src/inference.rs:102-130 | one of the first three runs answering every chunk in full is enough for the pinned path to answer, whatever the engine is |
| `PinnedLayout.PinnedEqualsNatural` | src/inference.rs:238-274 | pinned and natural serve the same rows whenever both serve |
| `PinnedLayout.EmbedBlocking` | src/inference.rs:197-274 | the branch taken and the two heads unpinned separately, still aligned |
| `Reranker.Rerank` | vendor-fastembed/src/reranking/impl.rs:109-196 | chunk, score, number and sort, the first error and a batch of zero refused |
| `Reranker.ScoresAnswerIff` | vendor-fastembed/src/reranking/impl.rs:109-196 | a pass is answered if and only if the batch is positive and no chunk errs |
| `Reranker.RankingIsDescending` | vendor-fastembed/src/reranking/impl.rs:183-195 | best first, ties in document order, every numbered score exactly there |
| `Reranker.AlignedScores` | src/inference.rs:554-565 | each slot holds the squash of the last entry naming it, zero if none does, and out-of-range entries touch nothing |
| `Reranker.RealignUndoesTheSort` | src/inference.rs:551-565 | realigning a ranking puts the i-th score back in slot i, whatever the scores |
| `Reranker.RerankIsPerDocument` | src/inference.rs:465-498 | for every document list, batch and layout, given one logit row per document, each document gets the squash of its own logit in input order |
| `Reranker.RerankBlocking` | src/inference.rs:465-498 | the pinned and the natural branch as one path over values |
| `Reranker.ShortPassesAreServed` | src/inference.rs:465-485 | the path answers exactly when no chunk errs; the row check before unpinning never fires |
| `Reranker.RightIffNoRowIsMissing` | src/inference.rs:489-498 | unpinned, for any engine whose full chunks are right, the answer is right if and only if the engine returned as many rows as documents |
| `Reranker.SlotOfDocument` | src/inference.rs:465-498 | pinned or not and whatever the engine answered, a document gets the squash of the score numbered by its own row, and zero when no such score came back |
| `Reranker.RightForEveryLogitIff` | src/inference.rs:465-498 | for an engine that answers a chunk with its leading rows, pinned or not, the answer is right for every logit if and only if each document's row came back and was computed from its own text |
| `Reranker.ShortTailIsHarmlessIff` | src/inference.rs:465-498 | when only the last chunk is short that is the case if and only if it reaches the last document |
| `Reranker.ShortPinnedPassIsWrong` | src/inference.rs:475-485 | a pinned pass of two documents, one row short, that gives the first a ruler's score and the second zero |
| `CivilCalendar.DayAndClockIsTheSteppedCalendar` | src/logging.rs:6-30 | for every timestamp the date is the one reached by stepping a naive Gregorian calendar day by day from 1970-01-01, and the clock adds up to the second of the day (RFC 3339 section 5.7 and Appendix C) |
| `CivilCalendar.DayStartInverts` | src/logging.rs:42-51 | the start of a timestamp's date is the second its day began |
| `CivilCalendar.NumberThenDate` | src/logging.rs:42-51 | every civil date, before 1970 too, is named again by the day its number stands for |
| `CivilCalendar.EveryDateIsStepped` | src/logging.rs:42-51 | a civil date starts at or after the epoch exactly when its year is at least 1970, and then stepping reaches it |
| `CivilCalendar.NumberOfNextDay` | src/logging.rs:42-51 | the arithmetic advances by one exactly as the calendar does, over month ends, leap days and eras |
| `CivilCalendar.OrderOfNumbers` | src/logging.rs:42-51 | date order is day-number order |
| `DayFolders.FolderStartIsExact` | src/log_segments.rs:66-82 | an answer exactly for the canonical text of a civil date from 1970 to 9999, and then its first second; signs, impossible days and foreign names answer nothing |
| `DayFolders.NameOrderIsDateOrder` | src/log_segments.rs:58-59 | byte order of the names is date order |
| `DayFolders.CutoffIsTheWindow` | src/log_segments.rs:41-51 | the cutoff test selects exactly the real dates strictly before today minus the window |
| `DayFolders.RetentionIsTheWindow` | src/log_segments.rs:32-60 | everything deleted is a real day past the window; everything past it that stays could not be deleted; nothing is lost or invented |
| `DayFolders.GoneAreRemovedDirectories` | src/log_segments.rs:41-57 | entry by entry: the directories past the window whose removal succeeds go, everything else stays, and every name reported is the name of one of them |
| `DayFolders.LogRoot.RetireDayFolders` | src/log_segments.rs:32-60 | deletes exactly the removable directories past the window, keeps all else in place, reports what went in order; a window of zero or an unreadable root changes nothing |
| `DayFolders.DaySegments.Open` | src/log_segments.rs:117-132 | the first segment is the moment of the start, the boundary the next midnight |
| `DayFolders.DaySegments.RollIfDue` | src/log_segments.rs:158-168 | nothing before the boundary; past it the segment of the day at 00-00-00, or none when it cannot be opened |
| `DayFolders.DaySegments.Write` | src/log_segments.rs:172-185 | for any clock readings, backward ones included, each write lands in the segment of the largest reading so far and the boundary is a multiple of a day that only grows |
| `PatchGrid.BaseCoords` | vendor-fastembed/src/models/qwen3_vl.rs:648-663 | the four loops list the cells of a frame in block order |
| `PatchGrid.RotaryCoords` | vendor-fastembed/src/models/qwen3_vl.rs:644-668 | row k of the coordinates is the cell of the tower's k-th token, for every list of images and frames |
| `PatchGrid.Interpolate` | vendor-fastembed/src/models/qwen3_vl.rs:534-582 | the interpolated rows are every image's cells in reading order |
| `PatchGrid.RearrangedFollowsTheCells` | vendor-fastembed/src/models/qwen3_vl.rs:610-628 | after repeat, reshape, permute and reshape, row f*area + j is the embedding of the frame's j-th cell |
| `PatchGrid.PositionEmbeddings` | vendor-fastembed/src/models/qwen3_vl.rs:524-631 | row k is the embedding of the k-th token's cell in its own image's grid |
| `PatchGrid.BuildCuSeqlens` | vendor-fastembed/src/models/qwen3_vl.rs:685-698 | one boundary per frame; row k lies in segment s if and only if its frame is s |
| `PatchGrid.EmitPatch` | vendor-fastembed/src/models/qwen3.rs:304-321 | the value at channel c, copy tp, row ph and column pw of a patch is the scaled pixel at column `col * ps + pw` and row `row * ps + ph` of that channel; nothing else is written and every read lies inside the picture |
| `PatchGrid.EmitPatches` | vendor-fastembed/src/models/qwen3.rs:298-326 | each value of a picture's patches is the pixel of its own token's cell |
| `PatchGrid.PreprocessImage` | vendor-fastembed/src/models/qwen3.rs:255-335 | an error exactly when a size is zero or the grid does not split; otherwise each value of row k is the scaled pixel of the k-th token's cell, in the tower's order, and the language tokens are the merge blocks |
| `PatchGrid.PixelRowsFollowTheTokens` | vendor-fastembed/src/models/qwen3.rs:1378-1398 | value by value, row k of the stacked pixels shows the k-th token's own picture at the k-th token's own cell |
| `PatchGrid.EachCellExactlyOnce` | vendor-fastembed/src/models/qwen3.rs:298-326 | every cell of every frame of every image is exactly one row, and nothing else is |
| `PositionIds.FindTokenSpans` | vendor-fastembed/src/models/qwen3.rs:176-191 | the answer is the list of maximal runs: sorted, separated, covering every occurrence and nothing else |
| `PositionIds.TheRunsAreUnique` | vendor-fastembed/src/models/qwen3.rs:176-191 | only one list is that, so the ids alone determine it |
| `PositionIds.BuildImagePositionIds` | vendor-fastembed/src/models/qwen3.rs:366-467 | the first offending row's error, or a buffer in which every row is right on its own: text before the image its position, an image token its place past the span's start, text after it counting on by one from one more than the largest id before, padding 1; every visible slot written exactly once, padding never, no index out of bounds, and the final count check cannot fire |
| `PositionIds.WriteRow` | vendor-fastembed/src/models/qwen3.rs:391-464 | one row of the above, each error exactly under its condition in the order of the checks |
| `PositionIds.FinishedBuffer` | vendor-fastembed/src/models/qwen3.rs:384-388 | slot by slot what the finished rows hold and how often each slot was written |
| `PositionIds.FinishedRowIsRight` | vendor-fastembed/src/models/qwen3.rs:391-464 | the finished rows hold exactly those ids, stated on the buffer, the mask, the span and the grid alone |
| `PositionIds.ImageTokensAreDistinct` | vendor-fastembed/src/models/qwen3.rs:437-447 | two tokens of an image never share a (time, row, column) triple |
| `PositionIds.IdsAfterTheImageAreLarger` | vendor-fastembed/src/models/qwen3.rs:454-463 | every id after the image exceeds every id before or in it, whichever axes are compared |
| `PositionIds.IdsAfterTheImageAreTight` | vendor-fastembed/src/models/qwen3.rs:454-463 | some image token has, on some axis, the id just below the first one after the image, and later ids count on by one on every axis |
| `PositionIds.FirstIdAfterTheImage` | vendor-fastembed/src/models/qwen3.rs:454-456 | that id is past the span's start by the longest side of the merged grid, and by at least one |
| `PositionIds.VisibleCounts` | vendor-fastembed/src/models/qwen3.rs:392-396 | the visible length is the number of unmasked positions |
| `PositionIds.VisibleIsThePrefix` | vendor-fastembed/src/models/qwen3.rs:392-396 | under right padding the counted positions are exactly the unmasked ones |
| `SmartResize.SmartResize` | vendor-fastembed/src/models/qwen3.rs:207-244 | the two errors exactly when a side is zero or the aspect exceeds 200; otherwise, side by side and on the inputs: a kept side is the nearest positive number of blocks, ties to the even one; a reduced side has as many whole blocks as it has room for when scaled to the upper limit, and one in any case; an enlarged side has as few as cover it scaled to the lower limit |
| `SmartResize.TargetSizeIsUnique` | vendor-fastembed/src/models/qwen3.rs:226-243 | only one size is that, so the inputs alone determine it |
| `SmartResize.RoundedIsNearest` | vendor-fastembed/src/models/qwen3.rs:193-205 | no integer is nearer, and of two equally near ones the even one is taken |
| `SmartResize.RoundedIsNearestBlocks` | vendor-fastembed/src/models/qwen3.rs:226-229 | the rounded side is the positive number of blocks that misses the side by least, ties to the even one |
| `SmartResize.SidesAreWholeBlocks` | vendor-fastembed/src/models/qwen3.rs:226-241 | in every branch both sides are positive multiples of the factor |
| `SmartResize.EnlargedReachesTheMinimum` | vendor-fastembed/src/models/qwen3.rs:237-241 | the enlarging branch reaches `min_pixels` |
| `SmartResize.ReducedStaysWithinTheMaximum` | vendor-fastembed/src/models/qwen3.rs:233-236 | the reducing branch stays within `max_pixels` when no side is clamped up |
| `SmartResize.StaysWithinIff` | vendor-fastembed/src/models/qwen3.rs:226-243 | for every branch and every limit from the ceiling up, the size stays within the limit if and only if an integer condition on the inputs holds |
| `SmartResize.ReducedFitsIff` | vendor-fastembed/src/models/qwen3.rs:233-236 | the reducing half: both sides long enough for a block always fit, one clamped side leaves the other exactly the room of the limit, two clamped sides are one block |
| `SmartResize.TwoClampedSidesExceed` | vendor-fastembed/src/models/qwen3.rs:233-236 | two clamped sides never fit into the ceiling they were reduced to |
| `SmartResize.EnlargedFitsIff` | vendor-fastembed/src/models/qwen3.rs:237-241 | the enlarging half: it fits if and only if some grid of blocks within the limit is at least as tall and as wide as the scaled picture |
| `SmartResize.ShrunkBlocksAtLeast` | vendor-fastembed/src/models/qwen3.rs:235-236 | how many whole blocks survive a reduction is a comparison of integers |
| `SmartResize.GrownBlocksAtMost` | vendor-fastembed/src/models/qwen3.rs:239-240 | how many blocks an enlargement needs is a comparison of integers |
| `SmartResize.ReducedCanExceedTheMaximum` | vendor-fastembed/src/models/qwen3.rs:233-236 | a 1 by 200 strip that comes out above its ceiling |
| `SmartResize.EnlargedCanExceedTheMaximum` | vendor-fastembed/src/models/qwen3.rs:237-241 | a single pixel between a floor of 2 and a ceiling of 3 that comes out as 4 pixels, no side clamped |
| `SmartResize.TokenLimitCanBeExceeded` | vendor-fastembed/src/models/qwen3.rs:264-271 | 100 by 100 pixels under a limit of 30 tokens that come out as 64 tokens |
| `SmartResize.EveryResizedImageIsPatched` | vendor-fastembed/src/models/qwen3.rs:264-291 | every accepted image gets a grid that splits into merge blocks, so the divisibility check never fires; tokens times merge squared is the grid; the token limit holds if and only if the size stays within the pixels of that many tokens |
| `SparseHead.CoversIffEveryIndexIsInside` | vendor-fastembed/src/sparse_text_embedding/impl.rs:36-38 | the shape guard holds if and only if every (row, position) of a non-empty input is an index of the output |
| `SparseHead.PostProcess` | vendor-fastembed/src/sparse_text_embedding/impl.rs:320-368 | on its own arguments: strictly increasing tokens; each listed weight is that of a position of this row that holds the token, is not masked out and scores above zero by its own hidden row; no such position weighs more than what is listed for its token, and every such token is listed; every read lies inside the guarded output |
| `SparseHead.FoldRow` | vendor-fastembed/src/sparse_text_embedding/impl.rs:338-359 | the map holds exactly the tokens of positions that count in this row, each with the largest weight, by the position's own hidden row |
| `SparseHead.DotOfChange` | vendor-fastembed/src/sparse_text_embedding/impl.rs:350-351 | changing one weight by x changes the dot product by x times the hidden value beside it |
| `SparseHead.DotOfZeros` | vendor-fastembed/src/sparse_text_embedding/impl.rs:350-351 | and it is zero for weights of zero, which together with that determines it |
| `SparseHead.ReadOut` | vendor-fastembed/src/sparse_text_embedding/impl.rs:361-365 | whatever order the map lists its keys in, the sorted read-out is the lexical head |
| `SparseHead.TheHeadIsUnique` | vendor-fastembed/src/sparse_text_embedding/impl.rs:320-368 | a row has only one such answer |
| `OutputSelection.SelectOutputKey` | vendor-fastembed/src/bgem3_dual/mod.rs:225-245 | the first matching name, else the only output of the wanted rank, else which of the two errors |
| `OutputSelection.FallbackIsTheOnlyOneOfItsRank` | vendor-fastembed/src/bgem3_dual/mod.rs:233-244 | with no matching name the answer is the name of the only output of the rank, if and only if there is exactly one; each error if and only if there is none or there are several |
| `OutputSelection.OrderDoesNotDecide` | vendor-fastembed/src/bgem3_dual/mod.rs:222-245 | any reordering of the outputs gives the same answer while at most one name matches |
| `OutputSelection.OrderDecidesBetweenTwoNames` | vendor-fastembed/src/bgem3_dual/mod.rs:230-232 | with two differently named matches some reordering changes the answer |
| `OutputSelection.TwoTokenOutputs` | vendor-fastembed/src/bgem3_dual/mod.rs:230-232 | two outputs whose names both contain `token_embedding`, answered by whichever is listed first |
| `MoeDispatch.TopKIsTheBest` | vendor-fastembed/src/models/nomic_v2_moe.rs:349-357 | the k experts are distinct, each at its own weight, and every one left out is lighter, or tied with a higher number |
| `MoeDispatch.Route` | vendor-fastembed/src/models/nomic_v2_moe.rs:339-366 | each token's best k, or the shape error exactly when there are tokens and fewer experts than k |
| `MoeDispatch.Group` | vendor-fastembed/src/models/nomic_v2_moe.rs:416-431 | the group of an expert, added up per token, is that token's share of the expert |
| `MoeDispatch.AddRow` | vendor-fastembed/src/models/nomic_v2_moe.rs:459-464 | one weighted row adds to exactly its token's slots of the flat buffer |
| `MoeDispatch.Dispatch` | vendor-fastembed/src/models/nomic_v2_moe.rs:411-465 | after the loop over experts every slot holds its token's sum over all experts |
| `MoeDispatch.Forward` | vendor-fastembed/src/models/nomic_v2_moe.rs:407-470 | every coordinate of every token is the bias plus that token's own weighted sum over its own best experts |
| `MoeDispatch.SumOfChange` | vendor-fastembed/src/models/nomic_v2_moe.rs:452-464 | changing one choice's weight changes the sum by that much of that choice's own expert |
| `MoeDispatch.SumOfZeros` | vendor-fastembed/src/models/nomic_v2_moe.rs:452-464 | and it is zero for weights of zero, which together with that determines it |
| `StableSort.SortIsStable` | vendor-fastembed/src/reranking/impl.rs:194-194 | the contract relied on wherever the code sorts: ordered, a permutation, ties in input order |
| `RowMajor.EncodeOfDecode` | vendor-fastembed/src/models/qwen3_vl.rs:617-627 | every element of a row-major buffer has exactly one index of its shape, and back |

## Left out

- HTTP handlers, wire types, tracing, tokio tasks, signal handling and environment parsing: no state worth a proof.
- ONNX sessions, tokenizers, image resampling and tensor kernels: parameters that may answer, answer short or fail; the
  row-wise theorems ask of them only that a chunk answered in full is answered row by row.
- Floating-point rounding and NaN: figures are exact reals, so nothing here claims bit equality; the order of the
  additions in the dispatch buffer does not matter over reals and does over `f32`.
- Integer widths other than the overlap mark's 64 bits: positions, sizes, seconds and pixel counts are unbounded, so the
  `u32` product in `build_cu_seqlens` and the casts of position ids are assumed to fit, and a clock near 2^64 seconds is
  not modelled.
- CacheLease.FirstLaunchReadsOwnSlice: speaks of the first launch after a build; a resident rung later run at another
  batch takes no lease in the code and gets no guarantee here. With no cache configured there is nothing to claim.
- CacheLease: a pass over no texts launches nothing; the handlers answer an empty list before any engine is asked
  (src/handlers.rs:71-83, src/handlers.rs:198-204), so `DropLease` follows a launch.
- BuildWindows.AttributedIff: fewer than 2^64 steps, because the overlap mark is a 64-bit counter that could
  otherwise come round to the same value.
- EngineLifecycle: the rerank slot of a full unload is in `CacheLease`; freed-memory logging and the idle unloader are
  not modelled.
- LockWait.LockOrRefuse: over a finite stretch of looks, since unbounded patience need not end; the sleep is any length
  from one poll to one poll plus a slack.
- `WedgePolicy::from_env`, `InFlightStamp` labels and `/health`'s view of a wedge: values passed in, strings passed out.
- `resolution_order` and `build_on_first_working`: first success in a short list.
- The canary's reference file, cosine arithmetic and self-check report: one-line folds beside the decision modelled here.
- DayFolders.LogRoot.RetireDayFolders: a folder is deleted wholly or not at all; file contents, permissions and partial
  deletions are not modelled.
- DayFolders.FolderStartIsExact: names are sequences of bytes; what a lossy conversion does to a name that is not UTF-8
  is not modelled.
- PatchGrid.PositionEmbeddings: one row of the embedding table is one element, so the hidden axis, which the permutation
  leaves last, is not spelled out; the four-corner interpolation at a cell is one opaque value.
- PositionIds.BuildImagePositionIds: batches padded to one width and spans that do not end before they start, which is
  what the tokenizer's padding and `find_token_spans` give it.
- SmartResize.SmartResize: the square root is a parameter with `root(x) * root(x) == x` on positive reals; a ceiling of
  zero, where the code divides by zero in floating point, is the branch that clamps both sides.
- SparseHead.PostProcess: token ids are natural numbers, as the tokenizer's are, and the hidden width equals the weight
  vector's length, which the guard does not check.
- `post_process_splade`, the MRoPE loop of `Qwen3RotaryEmbedding::forward`, `CenterCrop` and the attention layers.
