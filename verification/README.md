# Verified model of the Effect runtime library

This Dafny project models the parts of the Effect library whose correctness is hardest to see from the
code, and proves what they are for. `dafny verify dfyconfig.toml` checks everything.

- **Request batching.** A tree of requests composed in parallel and in sequence is rewritten, round by
  round, into an ordered list of batches for each resolver. The reference meaning of a tree is its set
  of *chains* (`SeriesParallel`): a parallel node offers the chains of either side, a sequential node
  every concatenation. A plan issues, in round i, exactly the i-th requests of the chains.
- **Causes.** Full descriptions of failures form a similar tree. The stack machines that traverse causes
  compute structural folds; the filters built on them do exactly what the failure handlers of the core
  rely on for unchecked casts; the flattening that equality and hashing use follows the chains.
- **Cache.** An intrusive doubly linked recency list, a latched access queue with eviction, and the
  protocol by which concurrent getters share lookups, modelled as a state machine whose steps are the
  synchronous pieces of the source between two points of interleaving. What a getter is answered, what
  an entry holds and which records are the most recent is stated over whole runs (`CacheAnswers`,
  `CacheContents`, `CacheRecency`).
- **Scheduler.** Priority buckets and the drain protocol that runs them on the event loop.
- **Deferred, ReleaseMap, Exit.** A write-once cell with waiting fibers, a registry of finalizers, and
  the combination of exits.
- **Configuration.** The interpreter that loads a description from a flat provider, its error trees,
  and the provider over a map of path strings.

Where the code does not do what one would expect, the exact condition is stated next to a concrete
input that shows it:

- "Every request is issued once" and "everything on the left of a sequence runs before anything on its
  right" fail when the left side branches: rewriting copies the right side
  (`PlanIssuesOnceIff`, `PlanOrderedIff`; `BranchingIssuesTwice`, `UnevenIsUnordered`).
- The empty cause is a unit of `Parallel` for the flattening of causes wherever nothing follows
  (`ParallelUnit`), and beside a given cause in every context exactly when that cause has an empty
  chain (`ParallelUnitEverywhereIff`; `ParallelUnitFailsOnTheLeft`).
- A getter is stranded exactly when the lookup it waits on is interrupted before its handler is
  installed, or by a cause that is not one of interruption only (`StrandedIffAbandoned`;
  `EarlyInterruptStrands`, `DefectStrands`).
- A step takes the cache beyond its capacity exactly when it stores an unmapped key without recording
  an access while the cache is full (`OverflowsIff`, over runs `NeverOverCapacity`;
  `SettingTwiceExceedsCapacity`, `StoringExceedsCapacity`, `LateFinishExceedsCapacity`).
- A key can be looked up twice at the same time, even by getters alone. The steps that make this possible
  are exactly those that take away the entry a running lookup shares: `set`, invalidation, eviction, the
  handler of another lookup of the key, and a getter whose entry has expired since it read it (`SoleIff`,
  over runs `LookupsAreSole`; `GettersLookUpTwice`).
- An access evicts the very entry it is for exactly when one of that entry's records comes so early
  that without the keys recorded before it the cache is still too large (`EvictedIff`,
  `AccessEvictsItselfIff`; `StaleRecordEvictsLatest`).
- A drain runs tasks in priority order exactly when each bucket received its tasks in that order
  (`DrainSortedIff`; `UnsortedDrain`); a later task overtakes an earlier one exactly when its priority
  is below the key of the earlier one's bucket (`OvertakesIff`).
- A registration loses a finalizer exactly when its key is taken (`RegistrationKeepsAllIff`), which
  takes a replacement under a key that was never handed out (`NoneLost`, `AnyRun`; `StrayReplacementLoses`).
- A table loads the same from two listings of its keys exactly when the first rows listed are equally
  long, and fails the same, where errors are reported at the path asked for, exactly when the same key is
  the first to fail (`TableOrderIff`; `TableDependsOnOrder`, `DefaultDependsOnOrder`).
- Under a provider with a path patch, a table and a sequence without indices apply the patch twice.
  They read what a direct load reads exactly when the second application changes nothing
  (`TableReadsByNameIff`, `SequenceReadsDirectlyIff`; `TablePatchesTwice`, `SequencePatchesTwice`).
- Nested and unnested providers split every text, so that a user gets the first piece only. Every
  configuration gives the value exactly when no text the patch leads to contains the sequence delimiter
  (`SplittingGivesTheValueIff`, `SplittingLoadsFirst`).

All source paths are relative to the root of the library.

## Model

| member | source | states |
|---|---|---|
| SeriesParallel.RoundsAreChainPositions | src/internal/blockedRequests.ts:164-267 | For every tree, round i holds exactly the i-th elements of its chains, and there are as many rounds as the longest chain is long. |
| SeriesParallel.RewritesKeepRounds | src/internal/blockedRequests.ts:222-249 | Dropping an empty left side, reassociating, and distributing a sequence over a parallel left side (which copies the right side) leave all rounds as multisets unchanged. |
| SeriesParallel.LeftIsFollowedByRight | src/internal/blockedRequests.ts:199-267 | With distinct items, each issue of an item left of a sequence is followed in a strictly later round by an issue of every item to its right. |
| SeriesParallel.OrderedIff | src/internal/blockedRequests.ts:199-267 | Everything left of a sequence is issued before anything to its right, for distinct items, iff the chains of every left operand with something on its right are equally long. |
| SeriesParallel.ExactMultiplicity | src/internal/blockedRequests.ts:199-267 | An item is issued as often as the product of the chain counts of the left operands that precede it says, summed over its occurrences. |
| SeriesParallel.IssuedOnceIff | src/internal/blockedRequests.ts:199-267 | Every occurrence is issued exactly once iff no sequence whose left operand branches has an item on its right. |
| SeriesParallel.CopyFreePlan | src/internal/blockedRequests.ts:199-267 | Without copying, distinct items are issued once each and in the order of the sequences. |
| SeriesParallel.BranchingIssuesTwice | src/internal/blockedRequests.ts:230-235 | An item to the right of two parallel items is issued twice. |
| SeriesParallel.UnevenIsUnordered | src/internal/blockedRequests.ts:230-235 | An item to the right of sides of different lengths is issued before the longer side is done. |
| BlockedRequests.RewriteKeepsRounds | src/internal/blockedRequests.ts:222-249 | The rewrites of `step` keep the rounds of the block. |
| BlockedRequests.RewriteLosesWeight | src/internal/blockedRequests.ts:199-267 | Each rewrite strictly lowers the weight of the block, although one copies its right operand; so the loops terminate. |
| BlockedRequests.Step | src/internal/blockedRequests.ts:199-267 | The worklist returns exactly the first round of a block and blocks whose rounds together are all its later rounds, and these weigh less. |
| BlockedRequests.Round | src/internal/blockedRequests.ts:171-181 | All current blocks take a step; their combined first rounds and the deferred blocks account for all rounds, and the total weight falls. |
| BlockedRequests.Flatten | src/internal/blockedRequests.ts:164-191 | The plan expands to exactly the non-empty rounds of the block in order; every collection has one resolver with several batches or one batch per resolver; no two neighbours share a single resolver; a block without requests is planned as one empty collection. |
| BlockedRequests.MergeAppendsRound | src/internal/blockedRequests.ts:275-301 | Merging a round, pipelined or not, appends exactly that round to the expansion of the plan and keeps it pipelined. |
| BlockedRequests.CombineAdds | src/internal/blockedRequests.ts:376-388 | Combining parallel collections adds their requests as multisets. |
| BlockedRequests.CombineKeepsBatchesIff | src/internal/blockedRequests.ts:442-454 | The sequential combination keeps all batches iff every resolver of the second collection occurs in the first; any other resolver gets an empty list. |
| BlockedRequests.PlanFollowsChains | src/internal/blockedRequests.ts:164-191 | In a plan, round i issues exactly the i-th requests of the chains of the block, and the number of rounds is the longest chain. |
| BlockedRequests.PlanRespectsSequence | src/internal/blockedRequests.ts:164-191 | In a plan, each issue of a request left of a `Seq` is followed by an issue of every request to its right. |
| BlockedRequests.PlanOrderedIff | src/internal/blockedRequests.ts:164-191 | A plan runs everything left of a `Seq` before anything to its right iff the block is balanced. |
| BlockedRequests.PlanMultiplicity | src/internal/blockedRequests.ts:164-191 | Over a whole plan each request is issued exactly as often as the chain counts of what must precede it say. |
| BlockedRequests.PlanIssuesOnceIff | src/internal/blockedRequests.ts:164-191 | A plan issues every occurrence of every request exactly once iff no `Seq` whose left operand branches has a request on its right. |
| BlockedRequests.Reduce | src/internal/blockedRequests.ts:100-156 | The two-phase stack machine equals the structural fold for every reducer; neither phase can run out of values. |
| BlockedRequests.MappedChain | src/internal/blockedRequests.ts:63-92 | Every chain of a block, with its resolvers mapped, is a chain of the mapped block. |
| BlockedRequests.UnmappedChain | src/internal/blockedRequests.ts:63-92 | Every chain of the mapped block comes from one of the block. |
| BlockedRequests.MapKeepsPlan | src/internal/blockedRequests.ts:63-92 | Changing resolvers moves no entry to another round. |
| Causes.Reduce | src/internal/cause.ts:896-930 | The loop is the left fold over the nodes in preorder, a node being skipped where the partial function is undefined. |
| Causes.Find | src/internal/cause.ts:637-667 | The loop returns the first hit in preorder. |
| Causes.ReduceWithContext | src/internal/cause.ts:934-1017 | The two-phase stack machine equals the structural fold for every reducer; it never runs out of values. |
| CauseFilters.Size | src/internal/cause.ts:148 | Counts exactly the failures, defects and interruptions. |
| CauseFilters.IsEmpty | src/internal/cause.ts:151-170 | True iff the cause has no leaf; hence iff its size is zero. |
| CauseFilters.IsInterruptedOnly | src/internal/cause.ts:182-183 | True iff there is neither a failure nor a defect. |
| CauseFilters.Failures | src/internal/cause.ts:186-196 | Lists all failures in preorder. |
| CauseFilters.Defects | src/internal/cause.ts:199-209 | Lists all defects in preorder. |
| CauseFilters.Interruptors | src/internal/cause.ts:212-216 | Collects exactly the fiber identifiers of the interruptions. |
| CauseFilters.FailureOption | src/internal/cause.ts:219-223 | The first failure, if there is one. |
| CauseFilters.DieOption | src/internal/cause.ts:240-244 | The first defect, if there is one. |
| CauseFilters.InterruptOption | src/internal/cause.ts:281-285 | The first interruption, if there is one. |
| CauseFilters.FlipCauseOption | src/internal/cause.ts:247-278 | The result is the pruning that drops the failures without a value and unwraps the others; everything else is kept in order; nothing iff only such failures were there and no empty node. |
| CauseFilters.KeepDefects | src/internal/cause.ts:288-319 | The result is the pruning to the defects: exactly these in order, composed as they were; nothing iff there are none. |
| CauseFilters.KeepDefectsAndElectFailures | src/internal/cause.ts:322-353 | The result is the pruning that turns failures into defects and drops interruptions: failures and defects in preorder, composed as they were; nothing iff there is neither. |
| CauseFilters.StripFailures | src/internal/cause.ts:386-395 | The result is the substitution of the empty cause for every failure: the leaves are those of the cause without its failures, interleaved as before. |
| CauseFilters.ElectFailures | src/internal/cause.ts:398-407 | The result is the substitution of a defect for every failure: the leaves are those of the cause in the same order, each failure now a defect. |
| CauseFilters.StripSomeDefects | src/internal/cause.ts:410-447 | The result is the pruning that drops exactly the matched defects; nothing iff only matched defects were there and no empty node. |
| CauseFilters.FlatMapCause | src/internal/cause.ts:470-482 | The result is the substitution of a cause for every failure: the leaves are those of the replacements, in place, and the failures the concatenation, in order, of the failures of the replacements. |
| CauseFilters.PruneLeaves | src/internal/cause.ts:247-353 | A filter of this kind treats every leaf on its own and keeps their order; it leaves nothing exactly when every leaf is dropped and no empty node is kept. |
| CauseShapes.PruneKeepsComposition | src/internal/cause.ts:247-447 | Two leaves of a pruned cause are composed in sequence, or in parallel, iff they are images of two leaves that were so composed in the cause. |
| CauseShapes.FiltersAreLeafByLeaf | src/internal/cause.ts:247-447 | All four pruning filters treat each leaf on its own, so the composition theorem holds of them. |
| CauseShapes.SubstKeepsComposition | src/internal/cause.ts:386-482 | Two leaves of a cause with its failures replaced are composed in sequence, or in parallel, iff they come from two leaves so composed, or are so composed inside one replacement. |
| CauseShapes.ElectKeepsFlattening | src/internal/cause.ts:398-407 | Turning failures into defects changes no round of the flattening, since failures and defects are listed by their values. |
| CauseAnnotations.PruneKeepsAnnotations | src/internal/cause.ts:247-447 | A pruned cause keeps the list of annotations above every leaf and empty node that it keeps, and their order. |
| CauseAnnotations.SubstRetainsAnnotations | src/internal/cause.ts:470-482 | Where failures are replaced with annotations retained, every replacement stands below exactly the annotations of the failure, every other leaf and empty node below its own, and in order. |
| CauseAnnotations.CollapsingFilters | src/internal/cause.ts:386-407 | Stripping and electing failures keep the annotations above every leaf they leave, and leave none directly on an empty node. |
| CauseFilters.Unannotate | src/internal/cause.ts:1135-1146 | Removes every annotation and no leaf. |
| CauseEvaluation.RewriteLosesWeight | src/internal/cause.ts:689-770 | Each rewrite strictly lowers the weight, although one copies its right operand; so both loops terminate. |
| CauseEvaluation.EvaluateCause | src/internal/cause.ts:689-770 | Returns the set of values of the first round, and causes whose rounds together are all later rounds; these weigh less and come with a non-empty set. |
| CauseEvaluation.EvaluateAll | src/internal/cause.ts:570-582 | All causes take a step; the union of their first rounds is collected. |
| CauseEvaluation.FlattenCause | src/internal/cause.ts:559-593 | The loop computes the rounds of the cause as sets of values. |
| CauseEvaluation.FlattenedByChains | src/internal/cause.ts:559-593 | The i-th set holds exactly the i-th leaf values of the chains of the cause, and there are as many sets as the longest chain is long. |
| CauseEvaluation.SameChainsFlattenAlike | src/internal/cause.ts:559-593 | Causes with the same chains have the same flattening. |
| CauseEvaluation.SequentialAssociative | src/internal/cause.ts:689-770 | Sequential composition is associative up to chains. |
| CauseEvaluation.SequentialUnit | src/internal/cause.ts:689-770 | The empty cause is a unit of sequential composition, anywhere. |
| CauseEvaluation.ParallelLaws | src/internal/cause.ts:689-770 | Parallel composition is associative, commutative and idempotent up to chains. |
| CauseEvaluation.DistributiveLaws | src/internal/cause.ts:689-770 | Sequential composition distributes over parallel composition on both sides. |
| CauseEvaluation.ParallelUnit | src/internal/cause.ts:689-770 | Wherever nothing follows - at the top, in the right operand of a sequence, beside other causes there - the empty cause is a unit of parallel composition on either side. |
| CauseEvaluation.Congruence | src/internal/cause.ts:559-593 | Causes with the same chains may replace each other anywhere inside a cause without changing its flattening. |
| CauseEvaluation.ParallelUnitEverywhereIff | src/internal/cause.ts:689-770 | The empty cause may be added beside a cause in every context without changing the flattening iff the cause has an empty chain. |
| CauseEvaluation.ParallelUnitFailsOnTheLeft | src/internal/cause.ts:689-770 | In the left operand of a sequence a concrete failure flattens differently with the empty cause beside it. |
| CauseEvaluation.UnannotateKeepsFlattening | src/internal/cause.ts:1135-1146 | Removing annotations does not change the flattening. |
| CauseEvaluation.FlattenedEmptyIff | src/internal/cause.ts:559-593 | The flattening is empty iff the cause has no leaf. |
| Core.FailureOrCause | src/internal/cause.ts:226-237 | The first failure, or the unchanged cause when it has none, so that the cast is sound. |
| Core.MatchEffect | src/internal/core.ts:662-690 | The handler runs iff there is a failure and no defect; otherwise a cause without failures is raised that lists failures and defects as defects in order and keeps the interruptions. The cast is sound. |
| Core.AttemptOrElse | src/internal/core.ts:1041-1061 | Falls through iff there is no defect; otherwise raises exactly the failures and defects as defects. `getOrThrow` cannot throw and the cast is sound. |
| Core.CatchSome | src/internal/core.ts:481-503 | Offers the first failure; without one the raised cause has no failure, so the cast is sound; a declined failure raises the original cause. |
| Core.MapError | src/internal/core.ts:839-856 | Without a failure the unchanged cause is raised and the cast is sound; otherwise the image of the first failure. |
| Core.CollectAllResult | src/internal/core.ts:2405-2430 | Nothing for no exits; all values in order when every exit succeeded; otherwise the causes of the failed ones combined in order. |
| Core.CollectAllLosesNothing | src/internal/core.ts:2028-2032 | Collecting keeps every leaf of every failed exit, in order, combined in parallel or in sequence. |
| Recency.WithoutAt | src/internal/cache.ts:168-191 | Taking an element out of a duplicate-free sequence leaves the parts before and after it. |
| KeySets.KeySet.Add | src/internal/cache.ts:168-191 | For a key at the head, in the middle, at the tail or detached, the list becomes the sequence without the key followed by the key; the links mirror it both ways. |
| KeySets.KeySet.Remove | src/internal/cache.ts:192-206 | Takes the first key and leaves it detached; the links mirror the rest. |
| CacheAccess.CacheState.TrackAccess | src/internal/cache.ts:592-620 | Unless the latch is taken, in which case the access is only queued, the queue is empty afterwards, the latch free, the recency list is the old one with all queued keys touched in order and the evicted ones dropped, and the entries are what eviction leaves. Every key that was linked or queued may be tracked again, evicted or not. |
| CacheAccess.CacheState.Drain | src/internal/cache.ts:595-604 | Touches all queued keys in order and empties the queue. |
| CacheAccess.CacheState.EvictLoop | src/internal/cache.ts:605-617 | The local size counter is the size of the map in the end; the keys are dropped from the oldest on, as long as the map is too large and a key is left, and a dropped key may be tracked again. |
| CacheRefinement.AccessRefines | src/internal/cache.ts:592-620 | With nothing queued, the entries and the linked list that `TrackAccess` leaves are those of the protocol's access, whatever names tell its nodes apart. |
| CacheRecency.StepRecency | src/internal/cache.ts:592-620 | Of all steps only a miss, and a getter that goes on with the entry it has read, make a record the most recent; the oldest records are dropped only when the map is too large. |
| CacheRecency.RecencyIsLastAccesses | src/internal/cache.ts:371-664 | After any run from the empty cache the recency list is a suffix of the records accessed, each once, in the order of their last accesses; all of it while the entries fit the capacity. |
| CacheRecency.TouchedLast | src/internal/cache.ts:595-603 | Adding keys one after the other leaves those not added in front and the others in the order in which they were added last. |
| Recency.EvictResult | src/internal/cache.ts:605-617 | Eviction removes exactly the entries of the dropped keys, stops once the map fits, and otherwise goes on to the last key. |
| Recency.EvictKeepsCapacity | src/internal/cache.ts:605-617 | Eviction never goes below the capacity. |
| Recency.EvictBound | src/internal/cache.ts:605-617 | Afterwards the map has at most as many entries as the capacity, or as there are keys without any record. |
| Recency.EvictsOldestFirst | src/internal/cache.ts:605-617 | A surviving key has no record older than the oldest record of an evicted key. |
| Recency.DroppedIff | src/internal/cache.ts:605-617 | A record is dropped iff the map without all keys recorded before it is still too large. |
| Recency.EvictedIff | src/internal/cache.ts:605-617 | An entry is evicted iff one of its records comes so early that the map without all keys recorded before it is still too large. |
| CacheProtocol.StepInv | src/internal/cache.ts:371-664 | Every step of interleaved gets, refreshes, sets, invalidations, lookups and interruptions keeps the invariant: the deferred of every Pending or Refreshing entry belongs to a lookup of that key that is still in flight or was abandoned, every waiter waits on an incomplete deferred, every resumed fiber holds the value of its deferred, and no fiber is in two of these states. Reading an entry, tracking its access and awaiting its deferred are separate steps, and a fiber may be interrupted between any two. |
| CacheAnswers.GetterOutcome | src/internal/cache.ts:546-582 | A getter that has read an entry and goes on, however much later and whatever others did meanwhile, is answered with the result of that entry iff it has one that has not expired; waits for the lookup the entry shares iff the entry is pending, or refreshing and expired, and pending lookups are not ignored; and otherwise has found nothing. |
| CacheAnswers.AnswerOutcome | src/internal/cache.ts:546-582 | A getter that is answered ends with that answer and touches nothing else, whenever it goes on. |
| CacheAnswers.AwaitOutcome | src/internal/cache.ts:546-582 | A fiber that is to wait for a deferred waits iff it is still open when the fiber goes on, and otherwise receives its value at once. |
| CacheAnswers.RefreshReads | src/internal/cache.ts:427-477 | A refresh that finds an entry waits for the lookup it shares, removes it when it has expired, and otherwise means to look the key up. |
| CacheAnswers.RefreshOutcome | src/internal/cache.ts:444-464 | However much later, a refresh looks its key up iff the entry is still the one it has read; the old result and its expiry then stay in the entry beside the new deferred. |
| CacheAnswers.InterruptedGetsNothing | src/internal/core.ts:2594-2606 | A fiber interrupted before it is resumed never waits, goes on or is resumed again, whichever lookups complete, unless it begins anew. |
| CacheContents.EntriesHoldWhatWasStored | src/internal/cache.ts:371-664 | After any run from the empty cache, the result and expiry inside a complete or refreshing entry are those of the last step that stored the key - a lookup of it that finished, or a `set` - and no invalidation has come since. |
| CacheContents.MappedIff | src/internal/cache.ts:371-664 | For every step and key, exactly when the key is mapped afterwards: it is stored, or was mapped and is not invalidated, evicted, removed as expired or by the handler of its lookup. |
| CacheRuns.CompletionResumesExactly | src/internal/core.ts:2479-2497 | In the protocol, completing an open deferred resumes each of its waiters with its value, lets nobody else stop waiting, and changes no one already resumed. |
| CacheRefinement.Complete | src/internal/core.ts:2479-2497 | Completing the mutable cell of a deferred leaves it representing the state that the protocol gives for completing that deferred: same value, no joiners left, exactly its waiters resumed; it wins iff the deferred was open, and otherwise nothing changes. |
| CacheRefinement.Await | src/internal/core.ts:2455-2471 | Awaiting the mutable cell leaves it representing the state that the protocol gives for awaiting that deferred, and returns the value iff it is complete. |
| CacheRefinement.Interrupt | src/internal/core.ts:2594-2606 | Interrupting a joiner of the mutable cell leaves it representing the state that the protocol gives for interrupting the waiting fiber. |
| CacheRefinement.OtherCompleted | src/internal/core.ts:2479-2497 | Completing one deferred leaves the cells of all others representing theirs. |
| CacheRefinement.OtherAwaited | src/internal/core.ts:2455-2471 | Awaiting one deferred leaves the cells of all others representing theirs. |
| CacheRefinement.OtherInterrupted | src/internal/core.ts:2594-2606 | Interrupting a fiber that waits on one deferred leaves the cells of all others representing theirs. |
| CacheRuns.RunInv | src/internal/cache.ts:371-664 | The invariant holds after every run. |
| CacheRuns.DeferredsAreNotShared | src/internal/cache.ts:371-391 | In a reachable state no two entries share a deferred. |
| CacheRuns.StepSound | src/internal/cache.ts:371-664 | Every step completes a deferred at most once and only by its own lookup or that lookup's interruption handler, stores a result only by finishing, lets nobody stop waiting who is neither interrupted nor served, and resumes every waiter with the value it waits for, and a fiber only by the deferred it waits for or had read from an entry. |
| CacheRuns.WaiterIsServedUnlessAbandoned | src/internal/cache.ts:546-582 | A waiter's lookup is still going to complete its deferred iff it was not abandoned. |
| CacheRuns.RunAbandons | src/internal/core.ts:896-914 | Over any run the abandoned deferreds are exactly those of lookups interrupted before the handler is installed or by a cause that is not one of interruption only. |
| CacheRuns.HandlerRunsIff | src/internal/core.ts:896-914 | A lookup is about to run its interruption handler after a step iff it was before and did not move, or the step interrupts it, with the handler installed, or raises its exit, by a cause of interruption only. |
| CacheRuns.StrandedForever | src/internal/cache.ts:651-661 | A waiter on an abandoned deferred waits through every run in which it is not interrupted itself. |
| CacheRuns.OpenLookupWakesItsWaiters | src/internal/cache.ts:626-664 | A lookup in any open phase completes its deferred and resumes all its waiters by its own remaining steps. |
| CacheRuns.OpenUntilDone | src/internal/cache.ts:626-664 | Whatever other steps are taken, a lookup that is not abandoned stays open until its deferred is complete. |
| CacheRuns.OwnStepAdvances | src/internal/cache.ts:626-664 | Each step of an open lookup itself completes its deferred or leaves it fewer steps to go, unless it abandons it. |
| CacheRuns.CompletesWithinItsSteps | src/internal/cache.ts:626-664 | However its steps are interleaved with others, a lookup that is not abandoned has completed its deferred once it has taken as many steps of its own as its phase says, at most four. |
| CacheRuns.StrandedIffAbandoned | src/internal/cache.ts:626-664 | Some run resumes a waiter without interrupting it iff its lookup was not abandoned. |
| CacheRuns.NoStrandedWaiter | src/internal/cache.ts:626-664 | From the empty cache, after any run, a waiter can still be resumed iff no step of the run abandoned its lookup. |
| CacheExamples.EarlyInterruptStrands | src/internal/core.ts:896-914 | A concrete run strands a getter: the lookup it waits on is interrupted before its handler is installed. |
| CacheExamples.DefectStrands | src/internal/core.ts:896-914 | A concrete run strands a getter: the lookup it waits on is interrupted, with the handler installed, by a cause that is not one of interruption only. |
| CacheRuns.WaiterOutcome | src/internal/cache.ts:546-582 | Through every run a waiter that is not interrupted either still waits on its incomplete deferred or has been resumed with exactly the value of that deferred, and keeps it. |
| CacheRuns.WaitersReceiveTheLookupsExit | src/internal/cache.ts:371-400 | After any run from the empty cache, whoever was resumed received the exit with which the lookup of that deferred finished, or the interruption its handler reported. |
| CacheSize.AccessBound | src/internal/cache.ts:592-620 | After an access the number of entries is at most the capacity or the number of keys without a record. |
| CacheSize.NoNeedlessEviction | src/internal/cache.ts:605-617 | An access evicts nothing while the map fits, and never below the capacity. |
| CacheSize.NeverOverCapacity | src/internal/cache.ts:592-620 | A run from a state within the capacity stays within it throughout iff none of its steps stores an unmapped key without recording its access while the cache is full. |
| CacheSize.OverflowsIff | src/internal/cache.ts:371-664 | From any state within the capacity, a step leads beyond it iff it stores an unmapped key without recording its access - a `set`, a refresh, or a late finish - while the cache is full. |
| CacheExamples.StoringExceedsCapacity | src/internal/cache.ts:427-502 | In a reachable full cache of capacity one, `set` of another key and a refresh of another key each exceed the capacity. |
| CacheExamples.SettingTwiceExceedsCapacity | src/internal/cache.ts:479-502 | Two `set`s of different keys exceed the capacity of an empty cache for one. |
| CacheExamples.LateFinishExceedsCapacity | src/internal/cache.ts:626-647 | A run at capacity one in which a lookup finishes after its entry was evicted exceeds the capacity. |
| CacheSize.AccessEvictsItselfIff | src/internal/cache.ts:592-620 | An access to a mapped key evicts that very key iff one of its records comes so early that the map without all keys recorded before it is still too large. |
| CacheExamples.StaleRecordEvictsLatest | src/internal/cache.ts:592-647 | A run from the empty cache of capacity one in which the entry accessed last is evicted, because it was recomputed under a new record while the old one stayed linked. |
| CacheSharing.SoleIff | src/internal/cache.ts:371-664 | As long as every running lookup is the one that its key's entry shares, a step keeps this iff it does not set or invalidate such an entry, evict one, remove one as the handler of another lookup of the key, or remove one as a getter that read an entry of the key which has expired since. |
| CacheSharing.LookupsAreSole | src/internal/cache.ts:371-664 | From the empty cache, a run keeps every running lookup shared by its key's entry throughout iff none of its steps is of that kind. |
| CacheSharing.OneLookupAtATime | src/Cache.ts:37-39 | Where every running lookup is shared by its key's entry, no key is looked up twice at a time. |
| CacheSharing.SecondLookupIff | src/internal/cache.ts:371-391 | A miss starts a second lookup of its key iff one is running that no entry shares any more. |
| CacheExamples.GettersLookUpTwice | src/internal/cache.ts:546-561 | A run of getters alone in which two lookups of one key are running: the second of two getters that read an entry before it expired removes the entry of the lookup that the first has started. |
| Scheduler.PriorityBuckets.ScheduleTask | src/Scheduler.ts:33-56 | After any arrivals the bucket keys are exactly their strict running minima in ascending order, and each bucket holds, in order of arrival, the tasks with priorities from its key up to the next. |
| Scheduler.PriorityBuckets.Find | src/Scheduler.ts:34-42 | Finds the last bucket whose key is at most the priority, and how many keys are. |
| Scheduler.PriorityBuckets.Take | src/Scheduler.ts:84-90 | A drain takes the tasks bucket by bucket and leaves none. |
| Scheduler.Placed | src/Scheduler.ts:43-55 | Placing a task gives the buckets of the longer sequence of arrivals. |
| Scheduler.MinimaAscend | src/Scheduler.ts:46-54 | The running minima ascend, and no priority is below the first of them. |
| Scheduler.DrainKeepsTasks | src/Scheduler.ts:84-90 | No task is lost or duplicated. |
| Scheduler.DrainIsStable | src/Scheduler.ts:84-90 | Within a bucket tasks keep their order of arrival. |
| Scheduler.EqualPrioritiesAreFifo | src/Scheduler.ts:84-90 | Tasks of equal priority run first in, first out. |
| Scheduler.DrainSortedByKey | src/Scheduler.ts:84-90 | The drain is sorted by the largest running minimum at most the priority. |
| Scheduler.OvertakesIff | src/Scheduler.ts:34-55 | Of two arrivals the later one comes first in the drain iff its priority is below the bucket key of the earlier one. |
| Scheduler.DrainSortedIff | src/Scheduler.ts:34-55 | The drain is in priority order iff every bucket received its tasks in that order. |
| Scheduler.UnsortedDrain | src/Scheduler.ts:34-55 | Tasks that arrive with priorities 1, 3 and 2 are not run in priority order. |
| Scheduler.MixedScheduler.ScheduleTask | src/Scheduler.ts:112-118 | Keeps the protocol invariant: exactly one drain is pending or executing while the scheduler runs and none otherwise, and every scheduled task was run once or is queued once. A new session starts with a microtask at depth 1 whenever the bound is positive, and with a timer otherwise; a session that runs gets no second drain. |
| Scheduler.MixedScheduler.Begin | src/Scheduler.ts:83-107 | A drain takes everything queued, in drain order. It is a timer drain iff as many microtask drains in a row as the bound allows came before it; otherwise it is one more of them. |
| Scheduler.MixedScheduler.RunNext | src/Scheduler.ts:86-90 | The drain runs its next task, exactly once. |
| Scheduler.MixedScheduler.Finish | src/Scheduler.ts:91-107 | Stops the session iff no task was scheduled meanwhile, otherwise asks for exactly one more drain: a timer iff the microtask drains in a row have reached the bound, and else a microtask one deeper. |
| Scheduler.MixedScheduler.NoLostWakeup | src/Scheduler.ts:63-119 | Whatever is queued has a drain to come; at rest everything scheduled has been run exactly once. |
| Scheduler.MixedScheduler.RunUntilIdle | src/Scheduler.ts:83-107 | Left alone the event loop comes to rest with every scheduled task run exactly once. |
| Deferreds.Deferred.Await | src/internal/core.ts:2455-2471 | Resumes at once with the value, or registers the joiner in front. |
| Deferreds.Deferred.CompleteWith | src/internal/core.ts:2479-2497 | Returns true iff the cell was pending; then the value is written and every joiner resumed once with it, the latest first; otherwise nothing changes. |
| Deferreds.Deferred.UnsafeDone | src/internal/core.ts:2584-2592 | Writes a pending cell and resumes every joiner once, in the order in which they waited; otherwise nothing changes. |
| Deferreds.Deferred.InterruptJoiner | src/internal/core.ts:2594-2606 | Takes the joiner out of a pending cell; nothing once it is complete. |
| Deferreds.Deferred.ExactlyOneFate | src/internal/core.ts:2455-2606 | Every await is in exactly one of waiting, cancelled and resumed; none is resumed before completion or waits after it; the value is written at most once. |
| ReleaseMaps.ReleaseMap.AddIfOpen | src/internal/core.ts:1890-1907 | After exit the finalizer is run at once with the stored exit, as the next entry of the log of runs; before, it is registered under a key that was never given out before and, as long as no replacement strayed, is not taken. What sits under that key otherwise is lost. |
| ReleaseMaps.ReleaseMap.Release | src/internal/core.ts:1868-1887 | Runs with the given exit and forgets the finalizer under the key, if there is one; nothing after exit. |
| ReleaseMaps.ReleaseMap.Replace | src/internal/core.ts:1922-1944 | Takes out the finalizer under the key and registers another there; after exit the new one is run at once with the stored exit. |
| ReleaseMaps.ReleaseMap.Remove | src/internal/core.ts:1947-1958 | Takes out the finalizer under the key, if there is one. |
| ReleaseMaps.ReleaseMap.ReleaseAll | src/internal/fiberRuntime.ts:2729-2747 | Hands over every registered finalizer, the latest key first, and exits; a second close hands over none. |
| ReleaseMaps.HeldInOrder | src/internal/fiberRuntime.ts:2729-2747 | A list in descending key order over all keys holds every finalizer as often as it is registered. |
| ReleaseMaps.ReleaseMap.NoneLost | src/internal/core.ts:1837-1968 | Without stray replacements every finalizer was handed in exactly as often as it is registered, was run, was taken out and was handed over together. |
| ReleaseMaps.ReleaseMap.RunsAtMostOnce | src/internal/core.ts:1837-1968 | No finalizer is run more often than it was handed in; handed in once and run, it is neither registered, nor was it taken out or handed over. |
| ReleaseMaps.AnyRun | src/internal/core.ts:1837-1968 | After any sequence of operations, a replacement has strayed iff one was under a key that no addition before it was given, in a map not closed yet; without one, every finalizer was handed in as often as it is registered, was run, was taken out and was handed over together. When no finalizer is handed in twice, none is run twice. |
| ReleaseMaps.RegistrationKeepsAllIff | src/internal/core.ts:1901-1905 | Registering a finalizer keeps all that are held, counted with multiplicity, iff its key is free. |
| ReleaseMaps.StrayReplacementLoses | src/internal/core.ts:1937-1941 | Replacing under a key that was never handed out makes the next registration lose the finalizer. |
| ConfigErrors.ReduceWithContext | src/internal/configError.ts:200-274 | The two-phase stack machine equals the structural fold for every reducer; it never runs out of values. |
| ConfigErrors.IsMissingDataOnly | src/internal/configError.ts:277-278 | True iff every leaf of the error is about missing data. |
| ConfigErrors.PrefixedLeaves | src/internal/configError.ts:153-174 | Prefixing puts the prefix before the path of every leaf and changes nothing else. |
| ConfigErrors.PrefixedTwice | src/internal/configError.ts:153-174 | Prefixing twice is prefixing with the joined prefixes. |
| ConfigErrors.PrefixedIsUndone | src/internal/configError.ts:153-174 | Prefixing loses nothing: taking the prefix off every leaf gives the error back, with its structure. |
| ConfigErrors.PrefixedMissingOnly | src/internal/configError.ts:153-184 | Prefixing does not change whether only data is missing. |
| PathPatches.Patch | src/internal/configProvider/pathPatch.ts:55-98 | The worklist applies a patch as its structure says, and stops at the first error. |
| PathPatches.RenamingComposes | src/internal/configProvider/pathPatch.ts:69-73 | Renaming maps every segment and keeps their number; renaming twice is renaming by the composition. |
| PathPatches.UnnestUndoesNest | src/internal/configProvider/pathPatch.ts:74-94 | Unnesting undoes nesting after any patch. |
| PathPatches.NestUndoesUnnestIff | src/internal/configProvider/pathPatch.ts:74-94 | Nesting undoes unnesting iff the path starts with the name. |
| ConfigProviders.LoopNonEmpty | src/internal/configProvider.ts:221-426 | Loading never succeeds with an empty list, so that the error for a missing single value cannot occur. |
| ConfigLoading.ZipValuesOutcome | src/internal/configProvider.ts:196-219 | Lists of equal length are zipped; otherwise the first index that only one list has is reported at the prefix. |
| ConfigLoading.ZippedSucceedsIff | src/internal/configProvider.ts:377-424 | A zip succeeds iff both sides succeed with equally many values; two failures are joined by And, one is reported as it is. |
| ConfigLoading.MapOrFailOutcome | src/internal/configProvider.ts:269-283 | A mapped configuration loads the images of all values in order iff there are images of all of them; otherwise it fails with the first rejection, prefixed by the path, or with the error of what is mapped. |
| ConfigLoading.FallbackOutcome | src/internal/configProvider.ts:251-264 | The first configuration that loads wins; the second is tried iff the condition admits the error of the first, and then both errors are reported, in order. |
| ConfigLoading.DefaultOutcome | src/internal/config.ts:575-582 | A default is used iff every leaf of the error is about missing data; what is left to fail with is never such an error. |
| ConfigLoading.ErrorsStayBelowThePrefix | src/internal/configProvider.ts:221-426 | For every configuration every leaf of every error concerns a path that extends the prefix, for an unpatched provider that reports its errors at the path it was asked for. |
| ConfigLoading.LoadingIsLocal | src/internal/configProvider.ts:221-426 | Loading depends only on what the provider says at paths that extend the prefix, and, without tables, not on the order in which children are listed; for tables see `TableOrderIff`. |
| ConfigLoading.OneValueOutsideSequences | src/internal/configProvider.ts:221-426 | Outside sequences every successful load gives exactly one value. |
| ConfigLoading.LoadGivesTheValue | src/internal/configProvider.ts:82-97 | Every configuration gives its user the value or the error of the interpreter, never one value of several, iff the provider loads single values from wherever its patch leads. |
| ConfigMaps.SplittingGivesTheValueIff | src/internal/configProvider.ts:461-481 | Under a nested or unnested provider over a map, which splits every text, every configuration gives the value iff no text that the patch leads to contains the sequence delimiter. |
| ConfigMaps.SingleWhereUndelimited | src/internal/configProvider.ts:461-481 | There, loading at a path gives one value for every parser iff the text found from that path, if any, does not contain the sequence delimiter. |
| ConfigMaps.SplittingLoadsFirst | src/internal/configProvider.ts:461-481 | There, what a user gets from a text is its first piece only, once all pieces parse. |
| ConfigMaps.NestedSplits | src/internal/configProvider.ts:461-481 | Nesting and unnesting a provider over a map, once or repeatedly, gives a provider that looks up the patched path and always splits. |
| ConfigLoading.ZipsAlignOutsideSequences | src/internal/configProvider.ts:377-424 | Outside sequences a zip succeeds iff both sides do. |
| ConfigLoading.IndicesIgnoreOrder | src/internal/configProvider.ts:619-628 | The indices do not depend on the order in which the children are listed. |
| ConfigLoading.IndicesAscend | src/internal/configProvider.ts:619-628 | The indices come out ascending, each as often as it is listed. |
| ConfigLoading.IndexedSequenceLoadsInOrder | src/internal/configProvider.ts:311-341 | Lists stored under any ascending indices, with gaps or without, load as the list of their elements in the order of the indices, in whatever order the indices are listed. |
| ConfigTables.TableOutcome | src/internal/configProvider.ts:342-376 | Under any patch, a table loads its rows below the patched path; it loads iff all of them do; it fails with the error of the first failing row listed; it has as many records as the first row listed has values, and its records depend on the set of keys only. |
| ConfigTables.TablesAlikeIff | src/internal/configProvider.ts:342-376 | Listed in two orders, with rows that load alike, a table fails from both or loads from both, and then alike iff the first rows listed are equally long. |
| ConfigTables.TableOrderIff | src/internal/configProvider.ts:342-376 | For table-free rows, two listings of the same keys load or fail together. They load the same iff the first rows listed are equally long, and, from providers that report errors at the path they were asked for, fail the same iff the same key is the first to fail in both. |
| ConfigTables.LoadsWhateverTheOrder | src/internal/configProvider.ts:221-426 | Without splitting, over a provider of single values, every configuration whose tables neither occur in sequences nor decide about a fallback by their error - tables in any part of `orElse` do not - loads the same from every listing, or fails from every listing. |
| ConfigTables.TableDependsOnOrder | src/internal/configProvider.ts:342-376 | With rows of one and two values the number of records follows the row listed first. |
| ConfigTables.DefaultDependsOnOrder | src/internal/config.ts:575-582 | With a missing and an invalid row, whether the default of a table is used depends on which is listed first. |
| ConfigTables.TableReadsByNameIff | src/internal/configProvider.ts:342-376 | Under every provider with a patch and every listing of keys among given names, a table of primitives is the table of what loading each key by its name gives iff, for each of these names, patching the already patched path gives the same path or error. |
| ConfigTables.SequenceReadsDirectlyIff | src/internal/configProvider.ts:311-341 | Under every provider with a patch, a sequence of primitives without indices reads the text that a direct load reads iff the patch leaves the already patched path alone. |
| ConfigTables.TablePatchesTwice | src/internal/configProvider.ts:342-376 | Under a nested provider a table does not find the key it has listed, although loading it by name succeeds. |
| ConfigTables.SequencePatchesTwice | src/internal/configProvider.ts:311-341 | Under a nested provider a sequence does not find a text that its element loads directly. |
| Paths.SplitJoin | src/internal/configProvider.ts:153-154 | Splitting undoes joining for every non-empty path whose segments avoid the delimiter. |
| Paths.JoinSplit | src/internal/configProvider.ts:153-154 | Joining undoes splitting for every string. |
| Paths.JoinAlikeIff | src/internal/configProvider.ts:153-154 | Two paths are written alike iff they are the same, or are the empty path and the path of one empty segment. |
| Paths.ReadWrittenIndex | src/internal/configProvider.ts:630-692 | A written index is read back, alone or after a segment. |
| Paths.IndexIff | src/internal/configProvider.ts:630-692 | A segment is read as an index iff it is digits in brackets, and is cut before its index iff something precedes digits in brackets. |
| ConfigRoundTrips.KeysStandForTheirParts | src/internal/configProvider.ts:648-684 | A key written as names between delimiters, with an index behind a name or not, stands for the path of the names with each index as a segment of its own. |
| ConfigMaps.SplitIndexInKeys | src/internal/configProvider.ts:647-666 | The loop rewrites every key so that indices are segments of their own; later keys win. |
| ConfigMaps.LookupFindsPath | src/internal/configProvider.ts:160-174 | Looking up a non-empty path finds exactly the text last stored under a key that stands for that path. |
| ConfigMaps.LookupAtRoot | src/internal/configProvider.ts:160-174 | The empty path finds what is stored under the path of one empty segment. |
| ConfigMaps.EnumerateChildren | src/internal/configProvider.ts:175-191 | The scan returns exactly the next segments of the keys that extend the path. |
| ConfigMaps.ChildrenAreNextSegments | src/internal/configProvider.ts:175-191 | The children of a path are exactly the next segments of the paths stored below it. |
| ConfigMaps.LoadsUnder | src/internal/configProvider.ts:590-609 | Loading a text reports errors at the path, and succeeds with at least one value, exactly one unless it is to be split. |
| ConfigMaps.FromMapServes | src/internal/configProvider.ts:148-194 | The provider over a map finds texts and lists children as stated, each child once. |
| ConfigMaps.UserLoadsText | src/internal/configProvider.ts:159-174 | A user who asks a map provider for a primitive at a path gets what the parser makes of exactly the text stored last for that path, its error prefixed by the path, and a missing-data error at the path when there is no text. |
| ConfigMaps.UserLoadsPieces | src/internal/configProvider.ts:159-174 | A user who asks for a list at a path without indices below it gets the list of what the parser makes of the trimmed pieces of the text stored there, in order, or the first rejection, prefixed by the path. |
| ConfigMaps.PiecesLoad | src/internal/configProvider.ts:585-613 | A text to be split loads iff the parser accepts every trimmed piece, and then as their images in order; otherwise with the first rejection, prefixed by the path. |
| ConfigMaps.TrimmedIs | src/internal/configProvider.ts:585-613 | Trimming takes away exactly the white space at both ends: what is left neither begins nor ends with any. |
| ConfigMaps.MapsAreFaithful | src/internal/configProvider.ts:148-194 | Providers over maps meet what the loading lemmas ask for. |
| ConfigRoundTrips.LoadingIgnoresInsertionOrder | src/internal/configProvider.ts:148-194 | Every configuration without tables loads the same whatever the order in which the map was filled, if no two keys stand for one path. |
| ConfigRoundTrips.TablesIgnoreInsertionOrder | src/internal/configProvider.ts:148-194 | Also with tables, as long as these neither occur in sequences nor decide about a fallback by their error, a configuration - with `orElse` anywhere - loads the same, or fails, whatever the order in which the map was filled. |
| ConfigRoundTrips.IndexedIgnoresOrder | src/internal/configProvider.ts:647-666 | If no two keys stand for one path, the rewritten map does not depend on the order of insertion. |
| ConfigRoundTrips.ListsRoundTrip | src/internal/configProvider.ts:311-341 | A non-empty list of texts stored under ascending indices, with gaps or without, loads as the list of the parsed texts, in order, wherever in the map they are. |

## Left out

- Order inside one batch: a round is a multiset of requests. `parallelCollectionCombine` puts newer entries in front, which is modelled, but the theorems do not speak about it.
- `causeEquals`, `contains`, `linearize`, `filter` and `squash` of causes. `causeEquals` stops as soon as either worklist is empty and is not transitive, so only the flattening it relies on is modelled.
- MapKey hashing and equality: they recurse through the links of the list. The model tells keys apart by identity, also where `refresh` compares the entry it read with the current one.
- Recency across different records of one key: only the order of records is proved, since an entry that is recomputed gets a new record while the old one stays linked (`StaleRecordEvictsLatest`).
- The cells of deferreds are tied to the protocol one operation at a time (`CacheRefinement.Complete`, `Await`, `Interrupt`); a joiner stands for one await, so a fiber that awaits one deferred again after an interruption is a new joiner.
- CacheRefinement.AccessRefines: ties only the access and its eviction to the linked list, when nothing is queued; queued accesses are those of callers further up the same stack (`CacheAccess.CacheState.TrackAccess` states what becomes of them), which the protocol's steps do not have.
- The cache's counters of hits and misses, `entryStats`, `values`, `entries` and `keys`, which only read; `invalidateWhen` is the step `Invalidate` whose condition held.
- The clock: steps carry the time they see and the expiry that was computed. Fibers, masks and the moments at which interruption lands: every moment is allowed as a step.
- What a lookup function does: a lookup contributes its exit. The getter that runs the lookup gets that exit directly and is not tracked further.
- `SyncScheduler`, `ControlledScheduler`, `makeMatrix`, `makeBatched`: variations that add only easy members.
- Priorities that are not integers, among them NaN; exceptions thrown by scheduled tasks and by joiners.
- ReleaseMaps.ReleaseMap.ReleaseAll: does not model how the execution strategy runs the finalizers that it hands over in order, because that is the fiber runtime's part; the `update` function is the identity throughout.
- Deferred: the operations that are `deferredCompleteWith` with a particular effect.
- Configurations that unfold without end through `Lazy`: a lazy configuration is the configuration it evaluates to.
- ConfigProviders.LoopNonEmpty: when a provider loads an empty list the source fails with a function that would build the error, since `missingError` is left unapplied; the model fails with the error it would build. Providers over a map never load an empty list (`MapsAreFaithful`).
- Path delimiters longer than one character, and delimiters that are digits or brackets; sequence delimiters longer than one character or made of white space, for which splitting by the regular expression and trimming differs from the model; line breaks before an index in a key.
- Numbers in indices are unbounded, while the source parses them as floating point numbers.
- ConfigTables.LoadsWhateverTheOrder: leaves out tables inside a sequence, and in the first branch of a fallback whose condition looks at the error, where the outcome can depend on the listing (`TableDependsOnOrder`, `DefaultDependsOnOrder`); `TableOrderIff` says exactly when, one table at a time.
- Providers other than the one over a map, and the case conversions; parsers of primitive configurations are arbitrary functions.
- The fiber runtime, layers, queues, hubs, pools, schedules, metrics, tracing, logging and secrets.
