# Verification of the HTTP cache's protocols and encodings

A Dafny model of the hard parts of an HTTP cache written in Go (package httpcache), with proofs of
what they promise. `dafny verify dfyconfig.toml` checks everything.

| file | models |
|---|---|
| `Invalidation.dfy`, `InvalidationResults.dfy`, `InvalidationExceptions.dfy` | the generation protocol: barriers, stale checks, retrieval and Vary lookup, cleanup, restart |
| `Generations.dfy`, `GenerationResults.dfy`, `GenerationSteps.dfy`, `GenerationExceptions.dfy` | stores, freshens, evictions and retrievals against each other, file access by file access, on both backends |
| `StoreTransaction.dfy` | one call of the multi-key store as its loops perform it, with a failure at any I/O step |
| `Paths.dfy` | executions built step by step, and the step at which something begins to hold |
| `LockTable.dfy` | the reference-counted per-key locks and their order |
| `Ledger.dfy`, `LedgerResults.dfy` | sizes, reservations, LRU eviction and the TTL sweep |
| `Journal.dfy` | the two-slot marker journal |
| `Publication.dfy` | freshness evidence for caches that expose no generations |
| `KeyEncoding.dfy`, `GoQuote.dfy`, `GoStrings.dfy` | cache keys, and the parts of Go's strings and strconv they use |
| `HeaderRecord.dfy`, `Integrity.dfy` | stored header records, and their integrity form |
| `Warnings.dfy` | splitting, filtering and merging Warning values |
| `Freshness.dfy` | lifetimes, age and the decision to validate, in int64 arithmetic |
| `CacheControl.dfy` | the Cache-Control parser and printer |

Concurrent parts are step systems: a step is one critical section of the source, a run is any
sequence of enabled steps, and the main results are about all runs. Sequential parts that change
state are classes whose methods are proved against specification functions. Backend failures are
oracles: every combination of outcomes is covered.

## What does not hold

These promises hold only under a condition. Each has a concrete counterexample and the condition.

- A pre-mutation Vary variant can be served unmarked when a cleanup sweep drops the base key's
  marker between retrieving the variant and judging it against that key: never while the variant's
  age is within the marker retention (`Invalidation.YoungVariantBeganAfterBaseInvalidate`), and at
  every age past it (`InvalidationExceptions.SweepRaceServesOldVariant`).
- A fetch whose time from start to write exceeds the marker retention escapes the invalidation, for
  every such duration (`InvalidationExceptions.OutlastingFetchEscapes`).
- A failed Store whose files cannot be removed leaves its body under the old header. On either
  backend that pair is marked stale until a Freshen dates the header anew; from then on it is served
  unmarked (`GenerationExceptions.FreshenUnmarksResidue`, exact condition in
  `GenerationResults.UnmarkedMixExactly`).
- Freshen reads the new identity of its resource after its commit, when the entry is open to
  eviction. If one comes between, the resource has none from then on, and in place, without digests
  in the records, a later Freshen of it can renew the body of another Store of the same date and
  record (`GenerationExceptions.FreshenRenewsAnotherBody`, exact conditions in
  `GenerationResults.IdentityExactly` and `GenerationResults.ForgottenIsComparedByRecord`). After
  renames the header file that the resource keeps open prevents it
  (`GenerationResults.FreshenOnlyRenewsWhatWasRetrieved`).
- Age and freshness are int64: an ancient response can look fresh and a fresh one stale, and a needed
  validation can lapse (`Freshness.AgeOverflows`, `Freshness.NegativeAgeOverflows`, exact conditions
  in `Freshness.LooksFreshExactly` and `Freshness.PlainRequestStaysNeeded`). It can lapse without any
  wrap-around where a date lies more than 292 years from the clock: Time.Sub saturates and a
  heuristic lifetime grows past the age (`Freshness.SaturatedAgeRevives`).
- A heuristic lifetime overrides the request's max-age
  (`Freshness.HeuristicOverridesRequestMaxAge`, exact condition in
  `Freshness.RequestMaxAgeHonoured`).
- The Cache-Control printer escapes with %q and the parser does not unescape
  (`CacheControl.BackslashDoesNotRoundTrip`, exact condition in `CacheControl.RoundTrip`).

The key encoding is stronger than its comments ask: it stays injective for Vary names that are no
valid field names.

## Assumptions

The local clock does not run backwards (where a result needs that, it says so), responses
carry the handler's request time, and hashKey does not collide on the keys in use. Unicode tables,
time formatting, status texts, SHA-256, base64 and JSON are function parameters with the facts
used of them stated as preconditions; for SHA-256 that is the absence of a collision between the
texts at hand.

## Model

| member | source | states |
|---|---|---|
| `Invalidation.FreshRetrieveBeganAfterInvalidate` | cache.go:1171-1216 | Section 4.4 of RFC 7234 over every run of overlapping stores, freshens, invalidations, retrievals, sweeps, evictions, failures and restarts: a Retrieve that reads its marker after Invalidate published its barrier and returns a non-stale entry returns one whose fetch or validation began strictly after that barrier, unless the fetch outlasted the marker retention |
| `Invalidation.FreshVariantBeganAfterBaseInvalidate` | handler.go:1222-1267 | a variant that lookup leaves unmarked after judging it against its discovery key began after that key's last invalidation, however other variants were refetched or freshened; the exceptions are an outlasting fetch and a sweep that dropped the marker between the retrieval and the judgement |
| `Invalidation.YoungVariantBeganAfterBaseInvalidate` | handler.go:1222-1267 | while the age of the variant is within the marker retention the sweep exception does not occur |
| `Invalidation.RunDropped` | cache.go:1963-1992 | over every run, a marker dropped under a retrieval is older than the retention |
| `Invalidation.PreMutationEntryStaysMarked` | cache.go:1899-1919 | from an invalidation of a governing key on, every entry still on disk that began before it is withdrawn by a marker at every later moment, across cleanup, eviction, failed stores and restarts |
| `Invalidation.CompletePassOutlivesDroppedMarkers` | cache.go:1955-2032 | when Cleanup will drop a marker, every surviving entry under any key was stored after it, for every TTL and StaleMapTTL; a pass that skipped an expired key (being rewritten, or not removable) drops no marker |
| `Invalidation.HandlerKeysAreClosed` | handler.go:385-398 | the key lists built for a store and for a validation contain the discovery key of every key they write, which is what the protocol asks of its callers |
| `Invalidation.BarrierRemembered` | cache.go:1184-1189 | the history of barriers only advances over a run |
| `Invalidation.CheckKeepsInv` | cache.go:931-939 | a supersession check that passes leaves an operation whose later stamp no earlier invalidation can precede unnoticed |
| `Invalidation.CommitKeepsInv` | cache.go:771-842 | publishing a checked and stamped operation keeps every entry either newer than the last barrier of its keys or withdrawn |
| `Invalidation.FailKeepsInv` | cache.go:900-923 | a failed operation that leaves any mix of old, new and missing files keeps the invariant |
| `Invalidation.PublishBarrierKeepsInv` | cache.go:1184-1189 | the barrier withdraws every entry, including those of operations still in flight |
| `Invalidation.FinalizeKeepsInv` | cache.go:1194-1217 | replacing the barrier by the final time, once no operation holds the generation lock, withdraws every entry that the barrier withdrew |
| `Invalidation.JudgeKeepsInv` | cache.go:1150-1160 | the verdict of a retrieval agrees with the markers at the moment it reads them |
| `Invalidation.SweepMarkersKeepsInv` | cache.go:1963-1992 | dropping markers by age keeps the invariant for entries, operations in flight and retrievals |
| `Invalidation.RestartKeepsInv` | cache.go:1345-1364 | restart with interrupted barriers replaced by the restart time keeps the invariant for every file that survived |
| `Invalidation.StepKeepsInv` | cache.go:771-842 | every atomic step keeps the protocol invariant |
| `Invalidation.RunInv` | cache.go:1404-1444 | the invariant holds in every state of every run from an empty cache |
| `InvalidationResults.RefetchedVariantIsServed` | handler.go:1222-1267 | over every run: once no Invalidate of the base key or the variant waits, a Store that stamps the variant later and commits is what a lookup opens, and until the next invalidation of either key every verdict on it, under its own key and under the base key, leaves it unmarked |
| `InvalidationResults.VariantUnmarkedExactly` | handler.go:1258-1263 | a variant stays unmarked if and only if its discovery key has no marker, or a final one earlier than the entry |
| `InvalidationResults.StaleVariantHasCause` | handler.go:1250-1267 | a variant is marked under its discovery key only if an Invalidate of that key waits, or one ended, a removal was refused or a restart interrupted one, no earlier than the entry was stored |
| `InvalidationResults.StaleHasCause` | cache.go:1150-1160 | the same for a retrieval marked under its own key |
| `InvalidationResults.RefusalHasCause` | cache.go:931-939 | and for a Store or Freshen that its supersession check ends, counted from when its fetch began |
| `InvalidationResults.NothingAgainst` | cache.go:1194-1217 | from a state in which no Invalidate of a key waits, no marker of it speaks against later work until it is invalidated again |
| `InvalidationResults.BarrierIsAwaited` | cache.go:1171-1216 | in every state of every run a barrier belongs to an Invalidate that will replace it: no key is withdrawn for good, not by a crash either |
| `InvalidationResults.StoreAfterRestartPasses` | cache.go:1345-1364 | after a restart in the middle of any invalidation, a Store that begins later passes its check on every key |
| `InvalidationResults.StoreAfterInvalidatePasses` | cache.go:931-939 | so does one that begins after an invalidation has ended |
| `InvalidationResults.RestartEndsWaiting` | cache.go:1345-1369 | after a restart no marker is a barrier and no Invalidate waits |
| `InvalidationResults.MarkerOrigin` | cache.go:1194-1217 | a final marker tells the time of the Invalidate, refused removal or restart it came from |
| `InvalidationResults.EntryOrigin` | cache.go:771-842 | every entry on disk tells when the fetch behind it began and the moment at which an operation on that key stamped it |
| `InvalidationResults.DroppedOrigin` | cache.go:1963-1992 | what counts as swept under a retrieval is a marker that a sweep dropped after the verdict |
| `InvalidationResults.StepMarker` | cache.go:1171-1216 | what each step does to the marker of one key |
| `InvalidationResults.StepEntry` | cache.go:771-842 | what each step does to the entry of one key; the TTL pass removes exactly the expired entries it does not skip |
| `InvalidationResults.StepOp` | cache.go:931-939 | what each step does to one Store or Freshen in flight; a check ends it if and only if a marker is no earlier than its start |
| `InvalidationResults.StepSeen` | cache.go:1150-1160 | what each step does to one retrieval and its verdict |
| `InvalidationResults.StepSweep` | cache.go:1899-1919 | the entry pass is complete if and only if it skipped no expired entry |
| `InvalidationExceptions.OutlastingFetchEscapes` | cache.go:1955-1961 | a concrete run in which a fetch longer than the marker retention is stored and served non-stale although it began before the invalidation |
| `InvalidationExceptions.SweepRaceServesOldVariant` | handler.go:1250-1267 | for every age past the marker retention, a concrete run in which a sweep between retrieving a variant and judging it against the base key lets a pre-mutation variant of that age be served unmarked |
| `InvalidationExceptions.LeadsIsRun` | cache.go:771-842 | the concrete executions are runs of the protocol |
| `InvalidationExceptions.InvalidateCanEnd` | cache.go:1191-1216 | from every state an Invalidate that waits can come to its end |
| `InvalidationExceptions.StoreCanCommit` | cache.go:771-842 | from every state a Store or Freshen that nothing speaks against can be carried to the commit of all its targets |
| `InvalidationExceptions.LookupCanEnd` | cache.go:1085-1169 | from every state outside Cleanup a lookup of a stored variant can come to its verdicts, and is stale if and only if a marker of its own key or of the base key withdraws it |
| `InvalidationExceptions.CrashCanCome` | cache.go:1345-1369 | a crash can come at any moment and leave any of the files on disk |
| `GenerationResults.UnmarkedMixExactly` | cache.go:1085-1169 | over every run of overlapping multi-key stores, freshens of retrieved resources and of HEAD responses, evictions, cleanups and retrievals, on both backends and with a failure at any file access: an unmarked retrieval gets a body other than the one its header was written for if and only if a refused discard left a residue under the key, Freshen has written the header since, and that header is dated after the marker |
| `GenerationResults.MixedExactly` | cache.go:1106-1140 | marked or not and whatever the clock does, a retrieval gets a mixed pair if and only if a refused discard had left a residue when it opened the body |
| `GenerationResults.ResidueIsLeftBehind` | cache.go:900-923 | a residue is there if and only if some discard was refused both files after the body had been rewritten without its header, and since then no file was removed and no Store wrote the header |
| `GenerationResults.RedatedIsDatedAnew` | cache.go:1520-1542 | a header counts as dated anew if and only if Freshen wrote it and no Store, discard or removal came after |
| `GenerationResults.FreshenOnlyRenewsWhatWasRetrieved` | cache.go:1448-1517 | whatever the clock does: if a Freshen of a retrieved resource commits, no Store committed on the key since, and the body under the renewed header is the one retrieved if and only if no failed Store in between left a rewritten body behind; after renames for every resource, in place for those opened under a generation identity and not forgotten since |
| `GenerationResults.FirstFreshenRenewsWhatWasRetrieved` | cache.go:1448-1517 | the first Freshen of a resource opened under an identity needs no such condition, on either backend |
| `GenerationResults.IdentityExactly` | cache.go:1490-1498 | over every run: a resource has an identity if and only if it was opened under one and no eviction removed the entry between the commit of a Freshen of it and the reading of the new identity |
| `GenerationResults.LosesIsInterrupted` | cache.go:1493-1498 | a Freshen that finds no identity to read committed after the retrieval, and an eviction came between |
| `GenerationResults.ForgottenIsComparedByRecord` | cache.go:1505-1517 | in place, a resource without an identity passes the check of Freshen if and only if the date and bytes of its record are those under the key, whichever Store wrote them |
| `GenerationResults.StepKeepsReader` | cache.go:1490-1503 | no step changes what a retrieval has opened, and a resource loses its identity exactly when Freshen reads it after the ledger dropped the entry |
| `GenerationResults.CommitPublishesAll` | cache.go:824-841 | a Store that commits, among any others, has put its new pair under all of its keys |
| `GenerationResults.FailureLeavesNothing` | cache.go:900-923 | a Store that fails, among any others, leaves all of its keys as they were when it began, or all of them missing or marked stale |
| `GenerationResults.ReadersSeeNoneOfIt` | cache.go:1085-1110 | until a Store returns, a reader that opens one of its keys finds what was there before; in place none opens it at all |
| `GenerationResults.StepCell` | cache.go:771-842 | what each step does to one key, and that it leaves all other keys alone |
| `Generations.StepKeepsInv` | cache.go:771-842 | every file access and critical section, the reading of the new identity after a Freshen and the advance of its record among them, keeps: files are what their writer's progress says, a readable pair is mixed exactly under a residue, an identity the ledger still has or a header file that is still there means no Store committed since |
| `Generations.RunInv` | cache.go:771-842 | the same in every state of every run |
| `Generations.StepKeepsDates` | cache.go:900-923 | with a forward clock, every step keeps a residue marked until Freshen has written its header |
| `Generations.RunDated` | cache.go:1150-1160 | the same in every state of every run |
| `Generations.DiscardKeepsCell` | cache.go:900-923 | one key of a discard with either file refused |
| `Generations.CommitCell` | cache.go:824-841 | one key of a commit holds the new pair |
| `Generations.RenewReader` | cache.go:1520-1542 | the commit of a Freshen keeps for every resource: if it shares the identity of the key, or after renames its header file, no Store committed since and the body there is the one it was retrieved with unless a discard left another |
| `Generations.NameKeepsReader` | cache.go:1493-1498 | the identity a resource is given after its Freshen, if there is one, stands for the body it was retrieved with; if an eviction left none, the header file still does after renames |
| `Generations.AdvanceRecordKeepsInv` | cache_provenance.go:45-68 | so does the record, or after renames the header file, that the resource is given then |
| `GenerationSteps.RenewedResourceAgrees` | cache.go:1490-1499 | over every run: a retrieved resource can be freshened repeatedly; when a Freshen of it commits and returns and no eviction of the key comes between, its record, identity and header file are those of the key again |
| `GenerationSteps.NextFreshenVerifies` | cache.go:1465-1473 | so the next Freshen of it passes its check if the key is as it was left |
| `GenerationSteps.VerifiedExactly` | cache.go:1448-1517 | Freshen goes on if and only if the key has a body and a complete header and they are those of its resource, by date, bytes, identity and after renames file; a HEAD response has nothing to compare |
| `GenerationSteps.RetrievalExactly` | cache.go:1085-1169 | over every run: a retrieval gets the body there when it opens it, the header there when it reads it and the identity of the key at first, and is stale if and only if the header is dated no later than the marker there when it is judged |
| `GenerationSteps.StepBody` | cache.go:486-500 | what each step does to the body file of a key |
| `GenerationSteps.StepHeader` | cache.go:486-500 | what each step does to the header file of a key |
| `GenerationSteps.StepMarker` | cache.go:900-923 | what each step does to the marker of a key: a discard marks it if and only if a file is left |
| `GenerationSteps.StepEntry` | cache.go:1620-1733 | what each step does to the ledger's record of a key |
| `GenerationSteps.StepStoreWork` | cache.go:771-842 | what each step does to a Store on a key |
| `GenerationSteps.StepFreshenWork` | cache.go:1448-1542 | what each step does to a Freshen of a key |
| `GenerationSteps.StepReader` | cache.go:1085-1169 | what each step does to a retrieval in progress |
| `GenerationExceptions.FreshenUnmarksResidue` | cache.go:1413-1499 | on both backends, for every key and later time, a concrete run: a Store rewrites the body, fails before its header, neither file can be removed, and a Freshen of the resource retrieved before makes the next retrieval get the old header unmarked over the new bytes |
| `GenerationExceptions.FreshenRenewsAnotherBody` | cache.go:1490-1517 | in place, for every key and with a clock that stands still, a concrete run: an eviction falls between the commit of a Freshen and the reading of its identity, another Store commits with the date and bytes of the renewed record, and a second Freshen of the same resource commits over the body of that Store |
| `GenerationExceptions.LeadsIsRun` | cache.go:771-842 | the concrete executions are runs with a forward clock |
| `GenerationExceptions.StoreCanCommit` | cache.go:771-842 | from every state whose locks are free, on both backends, a Store of any set of keys can be carried to its commit, which puts the new pair under every key |
| `GenerationExceptions.FreshenCanCommit` | cache.go:1404-1499 | from every state whose locks are free, a Freshen of a resource that agrees with its key, and of a HEAD response for any stored key, can be carried to its commit, which dates the header anew over the same body |
| `GenerationExceptions.CleanupCanDrop` | cache.go:1963-1992 | a marker older than the entry of its key can be dropped when no retrieval is under way |
| `StoreTransaction.Storage.Store` | cache.go:771-842 | one call of a multi-key store succeeds exactly when it is not cancelled and every key's writes, admission and renames succeed; success puts the new generation under all keys; a failure leaves every key as it was or every key missing or marked stale; what it has changed is no unmarked mix whatever it found, other keys are untouched, markers only advance, and the reservations are gone |
| `StoreTransaction.Storage.PrepareAll` | cache.go:846-859 | preparation changes nothing a reader can open on the rename backend, and holds the new pair under every key when it succeeds in place |
| `StoreTransaction.Storage.Prepare` | cache.go:951-1021 | body, admission, header for one key: what each failure leaves |
| `StoreTransaction.Storage.Commit` | cache.go:486-500 | the renames, in order, with a failure possible between any two |
| `StoreTransaction.Storage.DiscardPrepared` | cache.go:900-923 | every key of a partly published transaction ends missing or marked; exactly the files the backend removes are gone, and exactly what is left is marked |
| `StoreTransaction.Storage.DiscardKey` | cache.go:900-923 | one key: the files that can be removed are gone, and what is left is marked no earlier than it is dated |
| `StoreTransaction.Storage.constructor` | cache.go:205-240 | an empty store |
| `LockTable.OneLockPerKey` | cache.go:444-474 | in every run the lock map holds exactly the keys in use, and two users refer to one lock object exactly when their keys agree, although unused entries are deleted |
| `LockTable.WritersExclude` | cache.go:436-442 | a writer on a key excludes every other writer and reader of it |
| `LockTable.NoWaitCycle` | cache.go:863-885 | no set of overlapping stores waits in a cycle |
| `LockTable.SomeoneCanProceed` | cache.go:863-885 | while any goroutine waits, one can be let in, even by a lock that prefers writers, or one that holds a lock waits for nothing |
| `LockTable.NeverStandsStill` | cache.go:444-474 | over every run: while any goroutine has a lock, waits for one or has one to take, some goroutine can take a step |
| `LockTable.EnterAscends` | cache.go:876-879 | a goroutine that follows the lock order of its keys always takes a lock above all it has |
| `LockTable.LockOrderAscends` | cache.go:863-875 | the lock order is strictly ascending and holds exactly the hashes of the keys |
| `LockTable.StepsNeverGetStuck` | cache.go:455-473 | no step finds its entry missing or its count at zero |
| `LockTable.StepKeepsInv` | cache.go:444-474 | every lock, unlock and deletion keeps the counts exact |
| `LockTable.RunInv` | cache.go:444-474 | the counts are exact in every state of every run |
| `LockTable.StoreLockOrder` | cache.go:863-885 | the lock list is strictly ascending and holds exactly the hashes of the keys, and the entries kept are the first of each hash |
| `LockTable.SortAscends` | cache.go:875 | sorting distinct hashes gives an ascending list of the same hashes |
| `LockTable.FirstPerHashFacts` | cache.go:864-874 | deduplication keeps one entry for each hash |
| `LockTable.FirstPerHashIsFirst` | cache.go:864-874 | what it keeps for a hash is the first target with it |
| `LockTable.FirstPerHashInOrder` | cache.go:861-874 | and the targets stay in the caller's order |
| `LockTable.LetInExactly` | cache.go:457-461 | over every run: a waiting goroutine is let in if and only if nobody holds its key, or all who do read and so will it |
| `LockTable.ModeIsAsEntered` | cache.go:436-442 | a goroutine waits for and holds a key in the mode it asked for |
| `LockTable.StepPhase` | cache.go:444-474 | what each step does to one user of a key: it waits, holds, leaves |
| `LockTable.StepPlan` | cache.go:876-879 | what each step does to the locks a goroutine has still to take |
| `Ledger.LimitHoldsOverRuns` | cache.go:1779-1874 | over every interleaving of writers, evictions, touches, discards and cleanups both counters equal the sums over the index and the reservations, and only growth left by failed writes that the backend refused to remove can exceed the limit |
| `Ledger.ExcessIsLeftOver` | cache.go:1693-1733 | from within the limit, the excess after any run is at most the size of the entries still indexed that a failed write left behind and no publication replaced; without such entries the limit holds |
| `Ledger.StepKeepsWithin` | cache.go:1779-1874 | every step keeps that bound, counting for an admitted writer only what its publication will give back |
| `Ledger.EvictRemovesShortestRun` | cache.go:1841-1865 | eviction removes exactly the shortest run, from the least recently used end, of unprotected removable entries that reaches the target, or all of them |
| `Ledger.AdmissionRefusedOnlyWithoutRoom` | cache.go:1817-1874 | an item that fits the limit is refused if and only if removing every unreserved, removable entry other than its own would still not make room |
| `Ledger.EvictsLeastRecentlyUsed` | cache.go:1841-1865 | whatever eviction removes was used before every entry it could have removed and kept |
| `Ledger.OrderIsRecency` | cache.go:1678-1689 | over every run the list is in strictly descending order of last use |
| `Ledger.StepKeepsInv` | cache.go:1779-1874 | every step keeps both sums, the bound and that a reservation covers its writer's net growth |
| `Ledger.ReserveKeepsInv` | cache.go:1788-1801 | admission keeps the bound, for items that grow or shrink their entry |
| `Ledger.TrackBalanced` | cache.go:1620-1654 | publication trades the reservation for the new size and keeps both sums |
| `Ledger.ReserveBalanced` | cache.go:1788-1801 | reserving keeps both sums |
| `Ledger.ReleaseBalanced` | cache.go:1804-1815 | releasing keeps both sums |
| `Ledger.BeginBalanced` | cache.go:1779-1786 | beginning keeps both sums |
| `Ledger.TouchBalanced` | cache.go:1678-1689 | touching keeps both sums |
| `Ledger.DiscardBalanced` | cache.go:1693-1733 | discarding keeps both sums, with residue counted |
| `Ledger.EvictFacts` | cache.go:1841-1865 | eviction keeps the balance, every reservation and every protected or unremovable entry |
| `Ledger.SweepFacts` | cache.go:1995-2032 | the TTL sweep keeps the balance and every reserved entry, and reports completeness only when nothing expired is left |
| `Ledger.WithoutCutsOne` | cache.go:1737-1775 | list removal closes the gap and moves nothing else |
| `LedgerResults.SweepExactly` | cache.go:1995-2032 | the TTL sweep leaves exactly the entries that are not older than the cutoff, held by a writer or not removable, and is complete if and only if it had to skip no expired one |
| `LedgerResults.AdmissionExactly` | cache.go:1817-1874 | an item within the limit is admitted if and only if, with it and all promised growth, the cache is within the limit once every entry is gone that no writer holds, that is not its own and that can be removed |
| `LedgerResults.AdmissionRemoves` | cache.go:1841-1865 | admission removes the least recently used of those entries, as few as it takes |
| `LedgerResults.AdmissionSpares` | cache.go:1817-1839 | an item that is negative or over the limit, or a cache without one, removes nothing; without a limit every item of no negative size is admitted |
| `LedgerResults.AdmissionReserves` | cache.go:1788-1801 | an admitted item reserves what it adds to its key, a refused one changes no reservation |
| `LedgerResults.AdmissionCandidates` | cache.go:1841-1865 | what may be removed for a key: entries without a reservation, other than its own, that the backend removes |
| `LedgerResults.LimitExactly` | cache.go:2035-2070 | the size limit removes the least recently used entries that no writer holds and that can be removed, as few as it takes |
| `LedgerResults.NoLimit` | cache.go:1921-1926 | without a limit it removes nothing |
| `LedgerResults.StepEntry` | cache.go:1620-1733 | what every other step does to the entry of a key: a publication records its size and date, a failed write the larger of what was and what it left |
| `LedgerResults.StepReservation` | cache.go:1779-1815 | a key holds a reservation from the begin of its writer to its publication or return |
| `LedgerResults.StepAdmitted` | cache.go:1788-1801 | a publication has the size its writer was last admitted with |
| `LedgerResults.WriterPublishes` | cache.go:1620-1654 | a writer that is admitted gets its size and date recorded and leaves no reservation behind |
| `LedgerResults.WriterGivesUp` | cache.go:1804-1815 | a writer can always give its reservation up |
| `Ledger.Cache.ReserveEntry` | cache.go:1788-1801 | in place: the ledger and the answer of the admission specification, balanced |
| `Ledger.Cache.EvictForAdmissionLocked` | cache.go:1817-1874 | in place: the ledger and the answer of the eviction specification |
| `Ledger.Cache.EvictDownTo` | cache.go:1841-1865 | the backward loop performs the eviction specification |
| `Ledger.Cache.TrackEntry` | cache.go:1620-1654 | in place: replaces size and reservation and moves the key to the front |
| `Ledger.Cache.TouchEntry` | cache.go:1678-1689 | in place: moves a known key to the front |
| `Ledger.Cache.RemoveEntry` | cache.go:1737-1775 | in place: forgets the entry only when both files are gone |
| `Ledger.Cache.DiscardUnadmitted` | cache.go:1693-1733 | in place: forgets the entry, or keeps the residue counted |
| `Ledger.Cache.BeginReservation` | cache.go:1779-1786 | in place: an empty reservation protects the key |
| `Ledger.Cache.ReleaseReservation` | cache.go:1804-1815 | in place: takes the reservation off the counter |
| `Ledger.Cache.CleanupTTLExpired` | cache.go:1995-2032 | in place: performs the TTL sweep and reports whether it was complete |
| `Ledger.Cache.EnforceMaxSize` | cache.go:2035-2068 | in place: evicts unreserved entries down to the limit |
| `Publication.BorrowedTimeBelongsToTheBody` | handler_publication.go:93-116 | over every run: a retrieval is given a stored time only if one publication was alone on the key from its start until the second snapshot, in whatever order overlapping ones start, fail or return; the entry in the backend stays the same throughout, the one that publication wrote or, if it did not write the key, the one from before |
| `Publication.IsolatedSuccessIsTrusted` | handler_publication.go:50-72 | over every run: a publication that ends successfully leaves its proof if and only if it never met another one on the key while in flight |
| `Publication.OverlapMeansAnother` | handler_publication.go:22-48 | a recorded overlap means that every publication still in flight met another one |
| `Publication.ProofMeansAlone` | handler_publication.go:50-72 | a proof present in a state means its publication ran alone and none started since |
| `Publication.UnoverlappedIsAlone` | handler_publication.go:22-48 | a pending key without overlap has had one publication since its start |
| `Publication.BorrowsExactly` | handler_publication.go:93-116 | a retrieval is given a stored time if and only if its key has a proof when it begins, and no publication starts on the key and no sweep past the age of the proof comes before it ends |
| `Publication.ProofStays` | handler_publication.go:50-72 | a proof stays until a publication starts on its key or it is older than the cutoff of a sweep |
| `Publication.StepProof` | handler_publication.go:22-72 | what each step does to the proof of one key |
| `Publication.StepPending` | handler_publication.go:22-72 | what each step does to the count and the overlap of one key |
| `Publication.EndIsPossible` | handler_publication.go:50-72 | whatever else is in flight, a publication can always end |
| `Publication.StepKeepsInv` | handler_publication.go:22-72 | every step keeps the counters equal to the publications in flight |
| `Publication.RunInv` | handler_publication.go:22-72 | the same in every state of every run |
| `Publication.Handler.BeginLocalPublication` | handler_publication.go:22-48 | the loop over the deduplicated keys performs the specification |
| `Publication.Handler.FinishLocalPublication` | handler_publication.go:50-72 | sweeping expired proofs and looping over the keys performs the specification |
| `Publication.Handler.FinishKey` | handler_publication.go:62-71 | one key: the last publication decides, if it was alone |
| `Publication.Handler.LocalPublicationSnapshot` | handler_publication.go:112-116 | the proof of the key and whether it is idle |
| `Journal.StartupNeverGoesBack` | cache.go:1286-1317 | after any sequence of writes that fail or stop at any point and of restarts, startup finds the last confirmed snapshot or one attempted later, never an older one |
| `Journal.RestartJudgesTheSame` | cache.go:1345-1364 | an entry written before the restart is stale under the restored markers if and only if it is stale under the recovered snapshot |
| `Journal.RestoredExactly` | cache.go:1345-1364 | for every time, before the restart or after it: a restored marker withdraws it if and only if it is no later than the final time in the snapshot, or than the restart for an interrupted barrier |
| `Journal.LastWriteIsFound` | cache.go:1257-1317 | a snapshot written to the end is the one startup finds, confirmed or not |
| `Journal.RestartFromJournal` | cache.go:1286-1317 | if the write after the last marker change got to the end, restarting from the journal continues the run of the invalidation protocol with its Restart step |
| `Journal.SaveKeepsInv` | cache.go:1257-1283 | a write that ends in any way keeps the current slot recent |
| `Journal.RestartKeepsInv` | cache.go:1286-1317 | loading keeps it and finds a recent snapshot |
| `Journal.RunKeepsInv` | cache.go:1257-1317 | the same over every sequence of writes and restarts |
| `Journal.Store.PersistStale` | cache.go:1257-1283 | the next generation goes to the other slot and only a confirmed write advances it |
| `Journal.Store.LoadStale` | cache.go:1286-1317 | the loop finds the complete slot of highest generation |
| `KeyEncoding.RequestsShareAnEntry` | key.go:46-91 | section 4.1 of RFC 7234: two requests get the same key string if and only if method, URL, the listed field names and the lines of every listed field agree, missing apart from empty, for every Vary header and every header value |
| `KeyEncoding.ListedFieldsDecide` | key.go:46-114 | for a Vary header written out as a list of names: two requests for one target get the same key string if and only if they agree on every field of the list |
| `KeyEncoding.VaryListParses` | key.go:104-114 | a list of canonical names joined with commas, or commas and blanks, parses to that list, in order |
| `KeyEncoding.VaryPartsParse` | key.go:104-114 | whatever blanks and empty parts are around, every name comes out, in order |
| `KeyEncoding.FieldLinesExactly` | key.go:127-152 | the lines of a field are those under the least spelling of its name, then those of the header without it |
| `KeyEncoding.FieldMissing` | key.go:127-137 | a field is missing if and only if no spelling of its name is there |
| `KeyEncoding.VariedIsNeverBase` | key.go:66-91 | no varied key prints like an unvaried one |
| `KeyEncoding.KeyTextInjective` | key.go:74-91 | two proper keys print the same string if and only if they are equal |
| `KeyEncoding.EntryInjective` | key.go:46-54 | an entry determines the field name and its lines even for names that hold "=", quotes or brackets |
| `KeyEncoding.EncodedInjective` | key.go:127-152 | the encoding of a field determines its list of lines |
| `KeyEncoding.OutOfStep` | key.go:138-151 | a list of quoted strings never reads as another one from inside a string |
| `KeyEncoding.NoShift` | key.go:127-152 | no encoding contains a comma-free text, "=" and another encoding |
| `KeyEncoding.VaryNamesSymbols` | key.go:104-114 | no name parsed from a Vary header holds a comma |
| `KeyEncoding.String` | key.go:74-91 | the builder loop prints the specified text |
| `KeyEncoding.Vary` | key.go:46-54 | the loop appends one entry for each listed name |
| `KeyEncoding.ParseVary` | key.go:104-114 | the loop yields the trimmed, canonical, non-empty names in order |
| `KeyEncoding.VaryFieldKey` | key.go:127-152 | the nested loops encode the lines of all spellings of the name in sorted order |
| `KeyEncoding.WriteLines` | key.go:143-150 | the inner loop quotes the lines of one spelling |
| `GoQuote.QuotePrefixFree` | key.go:86-89 | a quoted string says where it ends and what it quotes, for every string |
| `GoQuote.EscapePrefixFree` | key.go:86-89 | escapes form a prefix code |
| `GoQuote.EscapedLength` | cachecontrol.go:143 | quoting leaves a text alone if and only if nothing in it needs escaping |
| `GoQuote.UnquoteQuote` | cachecontrol.go:143 | unquoting as strconv.Unquote does gives back every string |
| `GoStrings.SortNames` | key.go:128-134 | collecting map keys in any order and sorting them gives the one ascending list |
| `GoStrings.CanonicalFoldsCase` | key.go:108 | two field names have one canonical form if and only if they differ only in case |
| `GoStrings.CanonicalExactly` | key.go:108 | a token is in canonical form if and only if its first letter and each after a hyphen are upper case and all others lower case |
| `GoStrings.SplitJoin` | key.go:105 | splitting gives back what was joined |
| `GoStrings.TrimPadded` | key.go:108 | trimming takes off exactly the blanks around a text |
| `GoStrings.AsciiSpaces` | key.go:108 | which ASCII symbols count as blank around a name |
| `GoStrings.TokenSymbolsExactly` | key.go:108 | section 3.2.6 of RFC 7230: a token symbol is a visible ASCII symbol that is no delimiter |
| `GoStrings.AscendingUnique` | key.go:134 | a set of names has one ascending list |
| `HeaderRecord.TruncatedIsMiss` | cache.go:716-718 | every proper prefix of a serialised record is a miss |
| `HeaderRecord.CompleteIsRead` | cache.go:1556-1601 | a complete record gives back status, store time and fields, for any header; it is malformed if and only if a value holds a byte the reader refuses |
| `HeaderRecord.LegacyIsRead` | cache.go:1556-1601 | a record without a store time is read without one |
| `HeaderRecord.BadStoreTimeIsMalformed` | cache.go:1563-1569 | a store time that cannot be read makes the record malformed |
| `HeaderRecord.RecordRoundTrip` | cache.go:1038-1046 | for canonical names and trimmed newline-free values reading inverts writing |
| `HeaderRecord.ReadBackAt` | cache.go:1608-1615 | for any header: a name comes back with the lines of all its spellings in order, and not at all without lines |
| `HeaderRecord.TruncationShows` | cache.go:652-657 | no proper prefix of a record ends with the terminator |
| `HeaderRecord.OnlyBreakIsLast` | cache.go:652-657 | two line breaks in a row occur only at the end |
| `HeaderRecord.RecordRead` | cache.go:1556-1561 | cutting a record into lines gives the lines it was made of |
| `HeaderRecord.StatusRead` | cache.go:1587-1594 | the status line gives back the code |
| `HeaderRecord.ItoaRoundTrip` | cache.go:1591-1594 | a decimal reads back if and only if it fits int64 |
| `HeaderRecord.NumberExactly` | cache.go:1591-1594 | nothing but decimal digits is a number |
| `HeaderRecord.FoldedLines` | cache.go:1596-1599 | a field line that begins with a blank continues the line before it |
| `Integrity.ServedExactly` | integrity.go:64-144 | a header written for a key and a body, found with any body under any key, is served if and only if both are those it was written for; mixed pairs and colliding file names are misses |
| `Integrity.DamageIsDetected` | integrity.go:49-112 | an accepted record whose digest field is unchanged has unchanged metadata and unchanged record bytes |
| `Integrity.SealDecodes` | integrity.go:85-112 | decoding inverts serialising, and fails exactly on a wrong key, a zero time or a negative size |
| `Integrity.UnsealedExactly` | integrity.go:89-94 | a record without an integrity line is corrupt if and only if one is required |
| `Integrity.FreshenReseals` | cache.go:1479-1484 | freshening a decoded header writes what a store of the same body at that time would have written |
| `Integrity.TruncatedSealIsMiss` | cache.go:716-718 | a sealed record cut short is a miss |
| `Integrity.ServedMatches` | integrity.go:133-144 | whatever the files, a served body has the size and digest and the key digest of the accepted header |
| `Integrity.Files.DiscardCorrupt` | integrity.go:146-170 | files are removed if and only if the header bytes are still those observed |
| `Warnings.FilteredValues` | validator.go:123-146 | section 4.3.4 of RFC 7234: the warnings after filtering are the persistent ones received, text for text and in order, each once, for unbalanced quotes and trailing escapes too |
| `Warnings.MergedValues` | validator.go:93-102 | after a validation the warnings are the persistent ones stored and those it brings, each at its first occurrence |
| `Warnings.ListIsCut` | validator.go:153-170 | a list of values made of plain text and quoted strings is cut into these values: at the commas between them, at none inside a quoted string, escaped quotes included, nor in one that is never closed |
| `Warnings.PiecesRejoin` | validator.go:153-170 | whatever the field says, its pieces and the commas between them are all of it |
| `Warnings.FieldKeepsPersistent` | validator.go:126-143 | of a field that lists values with blanks around the commas, exactly those without a 1xx code are kept, in order and unchanged |
| `Warnings.FilterIdempotent` | validator.go:123-146 | filtering the output again gives the same output |
| `Warnings.RepeatedValidationChangesNothing` | validator.go:93-102 | merging the same validation warnings any further number of times changes nothing |
| `Warnings.KnownWarningsChangeNothing` | validator.go:93-102 | warnings whose values are all stored leave the stored field as it is |
| `Warnings.TransientIsOneHundreds` | validator.go:148-151 | a value is dropped if and only if it begins with a three-digit code and that is 1xx |
| `Warnings.JoinedValues` | validator.go:141-143 | splitting what was joined gives the values back |
| `Warnings.PiecesCut` | validator.go:153-170 | every piece is free of cutting commas and all but the last end outside quotes |
| `Warnings.TrimSettles` | validator.go:129 | trimming keeps a piece whole and balanced |
| `Warnings.SplitWarningValues` | validator.go:153-170 | the scanner with its two flags yields the pieces between commas outside quotes |
| `Warnings.FilterField` | validator.go:126-143 | the inner loop keeps the unseen persistent values of a line and records them |
| `Warnings.ValidatedWarningValues` | validator.go:123-146 | the outer loop performs the filter |
| `Freshness.ValidationStaysNeeded` | handler.go:513-560 | once a response needs validation it keeps needing it as the clock advances, for every combination of directives, while the freshness stays within int64 and, if the lifetime is heuristic, the date stays within 292 years of the clock |
| `Freshness.FreshnessNeverGrows` | handler.go:478-511 | the remaining freshness never grows: without a heuristic lifetime for all dates, with one while the date is within 292 years of the clock, where Time.Sub does not saturate |
| `Freshness.MustAskAntitone` | handler.go:531-559 | must-revalidate, min-fresh and max-stale all ask sooner when less freshness is left |
| `Freshness.ReusedExactly` | handler.go:513-560 | within int64 a response is reused without validation if and only if its age plus min-fresh is within its lifetime and it is fresh or stale within an allowance that nothing forbids |
| `Freshness.SharedMaxAgeDecides` | resource.go:237-239 | within int64, in a shared cache: with s-maxage the decision is that of its value and the age, whatever max-age, Expires and Last-Modified say, and no max-stale is accepted |
| `Freshness.MaxAgeDecides` | resource.go:241-243 | otherwise it is that of max-age, shortened by the request's max-age, whatever Expires and Last-Modified say; a negative lifetime counts as none |
| `Freshness.ExpiresDecides` | resource.go:245-260 | otherwise that of Expires minus Date, or minus Proxy-Date without a Date |
| `Freshness.BadExpiresDecides` | resource.go:245-251 | an Expires that does not parse grants nothing and rules heuristics out |
| `Freshness.HeuristicDecides` | resource.go:318-324 | with none of these a tenth of the time since Last-Modified decides, which the request's max-age does not shorten |
| `Freshness.NothingDecides` | resource.go:262 | a response that says nothing has no lifetime |
| `Freshness.UnreadableIsValidated` | handler.go:478-528 | a deciding directive, a request max-age or an age that cannot be read is validated, and so is what was invalidated |
| `Freshness.InvalidatedIsNotFresh` | handler.go:499-501 | an invalidated response has no freshness left |
| `Freshness.FreshForExact` | handler.go:478-511 | the computed freshness is the true one modulo 2^64, and equals it if and only if that fits int64 |
| `Freshness.LooksFreshExactly` | resource.go:213-229 | for every Age: the computed freshness is positive if and only if the true one lies less than 2^63 above a multiple of 2^64, and then validation is needed if and only if min-fresh asks |
| `Freshness.PlainRequestExactly` | handler.go:513-560 | for every Age, without request directives: validation is needed if and only if the response does not look fresh in that sense |
| `Freshness.PlainRequestStaysNeeded` | handler.go:513-560 | for every Age and all dates, without request directives: a validation needed at computed freshness f stays needed if and only if the freshness lost since lies from f to f + 2^63 or is at least f + 2^64; it is negative only for a heuristic lifetime and a date more than 292 years from the clock |
| `Freshness.LostIsElapsed` | resource.go:300-329 | for all dates: the freshness lost is at most the time elapsed and less than 2^64, and below zero only for a heuristic lifetime and a date more than 292 years from the clock; without either it is the time elapsed |
| `Freshness.LeastFreshnessIsStaleEnough` | handler.go:551-557 | at -2^63 any max-stale accepts the response |
| `Freshness.AgeOverflows` | resource.go:213-229 | Age: 9223372036 with max-age=60 is stale on arrival and fresh 62 seconds later |
| `Freshness.NegativeAgeOverflows` | resource.go:213-229 | Age: -9223372036 with max-age=1000 is validated on arrival and fresh 2000 seconds later |
| `Freshness.HugeAgeIsValidated` | resource.go:213-229 | Age: 20000000000 with max-age=60 lies below -2^64 and is validated |
| `Freshness.SaturatedAgeRevives` | resource.go:213-229 | without Proxy-Date and with a Date 8000000000 seconds before a Last-Modified at zero, Age: -9000000000 and no lifetime, validation is needed at 2233000000 seconds and not at 2234000000 |
| `Freshness.RequestMaxAgeHonoured` | handler.go:484-508 | within int64, a response older than the request's max-age is validated if and only if no heuristic lifetime still covers its age |
| `Freshness.HeuristicOverridesRequestMaxAge` | handler.go:503-508 | a day-old response last modified a year before answers a request that accepts five seconds |
| `Freshness.AllowedStays` | resource.go:231-263 | with a date to measure from, the lifetime before heuristics does not depend on the clock |
| `CacheControl.RoundTrip` | cachecontrol.go:129-148 | for lower-case names told apart by case folding the parser inverts the printer, repeated values in order, if and only if no value is empty or changed by %q |
| `CacheControl.SentIsParsed` | cachecontrol.go:35-97 | a header as it is sent, with names in any case and values bare or in quotes: every directive comes out in lower case, with the values sent under all spellings of its name, in order |
| `CacheControl.LookupExactly` | cachecontrol.go:107-122 | a directive is found under its lower-case spelling, else as written, else under the least spelling that differs in case alone, else not at all |
| `CacheControl.UnclosedQuote` | cachecontrol.go:46-52 | a quote that is never closed ends with the header |
| `CacheControl.TokensRoundTrip` | cachecontrol.go:35-74 | section 5.2 of RFC 7234: every map of lower-case tokens and non-empty printable ASCII values free of quotes and backslashes round-trips |
| `CacheControl.BackslashDoesNotRoundTrip` | cachecontrol.go:143 | a value that %q escapes comes back changed |
| `CacheControl.ParsePrinted` | cachecontrol.go:129-148 | without quotes in the values, every directive comes back with its non-empty values escaped |
| `CacheControl.ParsedQuoteFree` | cachecontrol.go:41-66 | no parsed value holds a quote, whatever the header says |
| `CacheControl.MadeIsCalls` | cachecontrol.go:41-74 | the loop's calls of Add are those of the recursive reading of the input |
| `CacheControl.ParseCacheControl` | cachecontrol.go:35-74 | the loop ends on every input and performs the specified calls of Add |
| `CacheControl.CacheControlMap.Add` | cachecontrol.go:85-97 | in place: appends a non-empty value under the stored spelling, or a new lower-case key |
| `CacheControl.CacheControlMap.LookupKey` | cachecontrol.go:107-122 | the search over the map in any order finds the lower-case, the exact or the least alike spelling |
| `CacheControl.CacheControlMap.constructor` | cachecontrol.go:36 | an empty map |
| `CacheControl.WriteDirective` | cachecontrol.go:137-145 | one key: its bare name, or one pair for each value |
| `CacheControl.String` | cachecontrol.go:129-148 | the loop over the sorted keys prints the specified text |

## Left out

- Invalidation.FreshRetrieveBeganAfterInvalidate: does not exclude fetches that outlast the marker retention; for these the promise is false, as OutlastingFetchEscapes shows.
- Invalidation.FreshVariantBeganAfterBaseInvalidate: does not exclude a sweep between retrieval and judgement of a variant older than the marker retention; for that the promise is false, as SweepRaceServesOldVariant shows.
- Invalidation.RestartKeepsInv: takes the marker snapshot on disk to be current, which Journal.RestartFromJournal derives when the last write got to the end; one that did not costs the restart guarantee, as the source says.
- GenerationResults.FreshenOnlyRenewsWhatWasRetrieved: in place leaves out resources without a generation identity; for these the promise is false, as FreshenRenewsAnotherBody shows, and ForgottenIsComparedByRecord says what is checked of them instead.
- GenerationResults.UnmarkedMixExactly: does not model a crash between two renames, which leaves a mix that only integrity mode detects (Integrity.ServedExactly); Cleanup is, for each key, a pass that finds the entry younger than the marker and a later drop of that same marker, which is what Invalidation.CompletePassOutlivesDroppedMarkers proves of a complete pass; the entries it removes are evictions.
- StoreTransaction.Storage.Store: is one call with its locks held; Generations and LockTable cover what runs against it.
- LockTable.SomeoneCanProceed: runs admit readers past waiting writers, which covers every order sync.RWMutex may choose.
- Journal.StartupNeverGoesBack: does not model wrap-around of the uint64 generation, nor the single snapshot file that the disk backend replaces by rename.
- Ledger.LimitHoldsOverRuns: sizes are unbounded integers; of the int64 range only the check for negative items is kept.
- KeyEncoding.RequestsShareAnEntry: takes the canonical URL as a string; parsing and canonicalising URLs is net/url's.
- HeaderRecord.CompleteIsRead: the reader's behaviour is that of net/http and net/textproto as the record exercises it; which bytes a value may hold is a parameter.
- Freshness.ValidationStaysNeeded: is stated within int64, the other results say what happens outside; the clock is read once for each decision, where the source reads it for the age and again for the heuristic.
- CacheControl.ParseCacheControl: keeps the rest of the input instead of a position in it; the joining of several header lines before parsing is not modelled.
- Integrity.Files.DiscardCorrupt: the ledger's part of the removal is in Ledger.
- Real file, VFS, pipe and network I/O, response streaming, trailers, staging files' leases: plumbing around the steps modelled.
- Client preconditions and range requests, which net/http decides.
- Purge, which clears all markers by design; startup scanning of existing files; several processes sharing one directory.
- Second-granular HTTP dates where no request time was recorded.
- Miss coordination, shutdown, statistics, logging, metrics and configuration setters: only easy members.
