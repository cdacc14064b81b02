# Verification of the relay's core protocols

This project models the stateful core of the relay server and proves what it promises: the multi-device
sync protocol, the disk cache, the two concurrent protocols of the image and the recovery service, the
rate limiter, and the small algorithms that the others lean on.

## The system

**Sync** (`SyncToken`, `SyncModel`, `SyncService`, `SyncReplies`, `SyncTable`, `SyncSystem`, `SyncRefinement`,
`SyncConvergence`, `SyncInterleaving`, `SyncDiscipline`, `SyncMerge`, `SyncPaging`, `SyncMoments`,
`SyncRaces`). Devices push batches of entries and pull pages of them. A push keeps, for every key, the entry
with the greater `updatedAt`, numbers what it writes from a per-domain watermark `max(previous + 1, now)`, and drops tombstones whose
number is more than 90 days old. A pull returns rows past a number, in number order, and refuses numbers
older than 90 days. `SyncService.Service` is the service object, changed step by step; each method is
proved equal to a function of the old state, and `SyncRefinement` shows that the object takes exactly the
steps of the transition system in `SyncSystem`. Runs of that system interleave clock ticks, committed
and rolled-back pushes by any device to any domain, restarts, and the pulls of one device; those of
`SyncInterleaving` also interleave the moments inside a push and a pull. Numbers are 64-bit: wrap-around
is written out where the source computes.

**Disk cache** (`CacheModel`, `CacheProofs`, `CacheRaces`, `DiskLRU`, `Query`). Files, metadata rows and
the running total are three views of one cache. Every answer of the file system and the database is a
parameter, so the theorems cover failed removals, failed renames, failed statements and files lost from
outside.

**Concurrent protocols** (`SingleFlight`, `RecoverQueue`). Requests and workers are processes with a
program counter that take atomic steps in any order. The mutex-protected objects are classes; the
interleaving uses the same functions their methods are proved to compute.

**The rest** (`RateLimit`, `Mirror`, `Accounts`, `Cursor`, `InviteCodes`, `Decimal`). Token buckets that
are forgotten when idle, page probing of a mirror, the keyset-paged account list with its opaque cursors,
and the text formats.

## Results worth knowing

* Convergence holds for a device that starts empty, keeps only tokens from pull replies and starts over
  on a refusal, whatever is pushed, rolled back, pruned or restarted. `SyncConvergence.Convergence` says so for
  undivided pushes and pulls; `SyncInterleaving.DividedConvergence` for the code's own moments, under two
  conditions that can be read off the server at each step of a pull.
* A push publishes its token in memory at `internal/sync/service.go:142` and its rows at `:174`; a pull reads
  the clock for its gate at `:190`, the rows at `:198` and the token at `:231`, and takes no lock. So a pull can
  return old rows with a new token, both when a push falls between its readings and when the pull falls, whole,
  between the two moments of a push. `SyncInterleaving.TokenStepExact` says for every such overlap when it does
  harm, `SyncMoments.PullInsidePushExact` and `SyncRaces.TornPullExact` for a single push in terms of its items,
  `SyncMoments.TornRunExact` for a run. Otherwise a row is lost until a pull is refused or the row is written
  again (`SyncRaces.LostForGood`).
* A tombstone can also be pruned between a pull's gate and its rows; then the device keeps showing the entry
  (`SyncMoments.LateGateMissesDeletion`). `SyncMoments.LateGateExact` says exactly when, and that nothing happens
  where the gate would still be passed when the rows are read.
* `SyncRaces.PushTokenExact` and `ReissuedNumbersExact` do the same for a push token taken as cursor, for an early
  restart and for a clock set back across a restart; each comes with an input that loses a row.
* The 90-day gate also meets the continuation tokens of a running full pull (`internal/sync/service.go:190`
  and `:235`). `docs/api.md:124-131` says that a reply with `hasMore` is continued with its token; the code
  refuses it when, by the time it comes back, the page's last row is older than 90 days.
  `SyncPaging.SessionFinishesIff` gives the exact condition, request by request. A full pull whose first page
  ends outside the window fails forever (`FailedResyncFailsAgain`), and one whose pages all end inside it at
  the start can still be too slow (`SlowDeviceIsRefused`).
* `docs/api.md:118` promises that the greater `updatedAt` of a key wins. Within one batch the comparison is
  made against the table before the batch, so of two versions of one key the last newer one wins.
  `SyncMerge.RepeatedKeyExact` says exactly when this differs from merging one item at a time.
* The gate's subtraction wraps for numbers at or below `now - 2^63`; `SyncDiscipline.GateMeansWindowIffNoWrap`.
* The total of the cache stays exact if and only if `Commit` could read the old size
  (`CacheProofs.CommitTotalExact`), and a drift stays until the cache is opened again
  (`CacheRaces.DriftStaysUntilReopened`); rows and files stay coherent unless the row's upsert fails after the
  rename (`CacheProofs.CommitCoherentExact`).
* A query that looked up before a worker wrote can make the fresh result fetching again;
  `RecoverQueue.RefetchExact` says exactly when.
* Forgetting idle buckets is invisible exactly when a bucket refills within its time to live
  (`RateLimit.SweepInvisibleIff`). The registration limiter is not such a case
  (`RateLimit.WhichLimitersSweepInvisibly`); `RateLimit.WindowBound` bounds what it and every other limiter
  admit.

## Model

| member | source | states |
|---|---|---|
| SyncInterleaving.DividedConvergence | internal/sync/service.go:98-238 | with pushes divided into reservation and commit and pulls into gate, rows and token, and all other steps in between: if the gate would still be passed at every reading of rows, and every complete page ends with the token that its rows were read under, the device shows exactly the server's live entries at the end of a pull without a further page |
| SyncInterleaving.StepKeepsInvariant | internal/sync/service.go:98-238 | every such step keeps server, device and the rows of a pull under way in order |
| SyncInterleaving.UndividedPushIsPush | internal/sync/service.go:142-174 | a push with nothing in between is the undivided push; in between the server shows the new token and the old rows |
| SyncInterleaving.UndividedPullIsPull | internal/sync/service.go:189-237 | a pull with nothing in between ends as the undivided pull |
| SyncInterleaving.UndividedPullPasses | internal/sync/service.go:189-202 | and goes through the gate and the rows on the way |
| SyncInterleaving.UndividedPullIsRefused | internal/sync/service.go:190-193 | or is refused at the gate, and the device starts over |
| SyncInterleaving.TokenStepExact | internal/sync/service.go:142-231 | whatever token ends a complete pull, and however the push under way ends: the copy has every row up to its cursor if and only if it has those between the watermark the rows were read under and the cursor |
| SyncInterleaving.FullPageIsHarmless | internal/sync/service.go:232-236 | with a further page no token from memory is used, and the pull ends in agreement whatever is under way |
| SyncInterleaving.RowsStepExact | internal/sync/service.go:189-202 | whenever the gate was passed, a page leaves no key without a row live if and only if none was live before |
| SyncConvergence.Convergence | internal/sync/service.go:113-238 | with undivided pushes and pulls: after every reply without a further page the device shows exactly the server's live entries of its domain, over all runs of ticks, pushes, rollbacks, prunes, restarts and pulls |
| SyncConvergence.NewDeploymentBegins | internal/sync/service.go:35-46 | an empty server and a device without data satisfy what Convergence asks of the beginning |
| SyncConvergence.CompletePullConverges | internal/sync/service.go:198-237 | one pull without a further page, in any state that satisfies the invariant, makes device and server show the same for every key |
| SyncConvergence.RunKeepsInvariant | internal/sync/service.go:113-238 | every run keeps the server valid and the device's copy in agreement with it |
| SyncConvergence.StepKeepsServerValid | internal/sync/service.go:113-178 | every step keeps tokens well-formed and ordered, numbers distinct and bounded by the stored watermark, and pruned tombstones outside the window |
| SyncConvergence.StepKeepsAgreement | internal/sync/service.go:113-238 | every step keeps: rows up to the cursor agree; a key without a row is not live in the copy, or the next pull is refused |
| SyncConvergence.PushKeepsAgreement | internal/sync/service.go:122-173 | a push or a rollback of any device keeps the copy in agreement, pruning included |
| SyncConvergence.PullKeepsAgreement | internal/sync/service.go:187-237 | a pull, refused or not, keeps the copy in agreement |
| SyncConvergence.PullDropsGoneKeys | internal/sync/service.go:187-196 | after a pull whose gate is passed at the moment of the rows no key without a row is live in the copy; `SyncMoments.LateGateExact` has any other moment |
| SyncConvergence.PageIsInterval | internal/sync/service.go:198-236 | a page holds exactly the rows past the since number and up to the number of its continuation token |
| SyncConvergence.ReplyCursor | internal/sync/service.go:230-237 | the token of a reply is the number of the page's last row when there is more, else the current watermark |
| SyncConvergence.ReplyReach | internal/sync/service.go:198-237 | a row is in the page if and only if its number lies past the old cursor and not past the new one |
| SyncSystem.PushKeepsTokens | internal/sync/token.go:74-95 | stored watermark <= watermark in memory <= largest number ever reserved, for every domain, after commits and rollbacks |
| SyncSystem.PushKeepsRows | internal/sync/service.go:142-173 | live numbers stay positive, pairwise distinct within a domain, and at most the stored token |
| SyncSystem.PushKeepsPruned | internal/sync/service.go:169-171 | every tombstone ever pruned has a number more than 90 days behind the clock |
| SyncSystem.PushNumbers | internal/sync/token.go:79-91 | a batch starts above every number ever reserved in its domain, even by rolled-back pushes, and not below its own time |
| SyncSystem.PushMarks | internal/sync/service.go:142-163 | the three watermarks of every domain after a push, committed or not |
| SyncSystem.RestartMark | internal/sync/token.go:38-62 | loading restores the stored watermark of every domain and invents none |
| SyncSystem.RestartKeepsValid | internal/sync/token.go:38-62 | a restart keeps the server valid once the clock has passed the numbers that rollbacks took |
| SyncRefinement.PushTakesStep | internal/sync/service.go:88-179 | Push leaves the object as the system's push step says: refused or failed early nothing changes, rolled back late only the token advances, committed all three tables change |
| SyncRefinement.PullTakesStep | internal/sync/service.go:183-238 | Pull answers what the system's pull step answers |
| SyncRefinement.StartTakesStep | internal/sync/service.go:35-46 | starting the service is the system's restart step |
| SyncService.Service.Push | internal/sync/service.go:88-179 | errors, reply, tables and token store after a push, for every request and every place where the transaction can fail |
| SyncService.Service.Pull | internal/sync/service.go:183-238 | the reply is built from the limit + 1 lowest-numbered rows past the since number; refusals for a bad domain, a bad token and an expired one |
| SyncReplies.AnswerPush | internal/sync/service.go:88-120 | in terms of the request alone: the domain, the number of items, the items and the base token are checked in this order; with passing items a push is accepted if and only if its base token is empty, current or a token of the last 90 days, an older token demands a full resync, and any other text is a bad request; a refused push changes nothing |
| SyncReplies.AnswerPull | internal/sync/service.go:183-196 | a pull of a known domain is answered if and only if its since is empty or a token of the last 90 days; every other text demands a full resync |
| SyncReplies.GateByText | internal/sync/service.go:187-196 | which since texts pass the gate, and with which number |
| SyncReplies.BaseByText | internal/sync/service.go:102-111 | what becomes of a base token that is neither empty nor current |
| SyncReplies.ValidateOneExact | internal/sync/service.go:243-267 | an item without a key is refused; any other passes, normalised, unless one of the checks on its data fails, and then with that error |
| SyncService.Service.CollectAccepted | internal/sync/service.go:122-140 | the loop collects exactly the items that are newer than the stored entry |
| SyncService.Service.WriteRows | internal/sync/service.go:143-154 | the loop writes item i under number base + i |
| SyncService.Service.Assemble | internal/sync/service.go:208-237 | cutting to the limit and choosing the token |
| SyncService.ValidateAllExact | internal/sync/service.go:242-270 | a batch passes with one normalised item for each of its items, at its place, or fails with the error of its first bad item |
| SyncService.ValidationIsIdempotent | internal/sync/service.go:248-267 | validation only fills in missing data, and validated items pass again as they are |
| SyncTable.PushAt | internal/sync/service.go:122-173 | what one push does to any single entry: replaced under a number from the batch, or gone as a stale tombstone, or untouched; a push never prunes its own writes |
| SyncTable.WriteAt | internal/sync/service.go:143-154 | an entry takes the last item of its key in batch order, with that item's number |
| SyncTable.AcceptedComeFromItems | internal/sync/service.go:122-140 | the accepted items are exactly the batch's items that beat the stored entry |
| SyncDiscipline.TokensStrictlyIncrease | internal/sync/token.go:71-95 | of two pushes to a domain the later one's token and numbers are all larger, across empty batches, rollbacks, restarts and clocks set back |
| SyncDiscipline.NumbersRiseIff | internal/sync/token.go:84-87 | for a push at any time: its numbers exceed every number ever reserved if and only if none was forgotten or the time exceeds them |
| SyncDiscipline.WrittenRowNumbers | internal/sync/service.go:142-173 | a written row's number exceeds all earlier ones, is at least the push's time and at most the new token, and the row survives the push's own prune |
| SyncDiscipline.OtherDomainsUntouched | internal/sync/token.go:33-35 | no row and no token of another account or domain changes |
| SyncDiscipline.GateSoundness | internal/sync/service.go:188-196 | in every run a since number that is accepted now lies above every tombstone pruned until now |
| SyncDiscipline.PrunedRowsAreRecorded | internal/sync/service.go:169-171 | only tombstones older than the window leave the table, and all of them are in the record that GateSoundness speaks of |
| SyncDiscipline.GateExact | internal/sync/service.go:189-190 | which numbers pass the gate in 64-bit arithmetic |
| SyncDiscipline.GateMeansWindowIffNoWrap | internal/sync/service.go:189-190 | the gate means "within 90 days" if and only if the number is above now - 2^63 |
| SyncDiscipline.LeastNumberPasses | internal/sync/service.go:189-190 | a token text far outside the window that passes |
| SyncDiscipline.IssuedNeverFalls | internal/sync/token.go:74-95 | no run lowers the largest number reserved in a domain |
| SyncMerge.RunIsMergeOfArrivals | internal/sync/service.go:122-154 | over every run with distinct keys per batch, an entry that is never pruned is the merge of the values pushed to it, in order of arrival |
| SyncMerge.MergeAllIsFirstNewest | internal/sync/service.go:131-132 | merging keeps the greatest updatedAt, the first arrival among equals |
| SyncMerge.MergeIsOrderIndependent | internal/sync/service.go:122-140 | with different updatedAt values the order of arrival does not matter |
| SyncMerge.BatchIsFold | internal/sync/service.go:122-154 | a batch with distinct keys equals its items merged one after the other |
| SyncMerge.RepeatedKeyExact | internal/sync/service.go:122-154 | for any batch: exactly when batch and one-by-one merging agree on a key |
| SyncMerge.RepeatedKeyKeepsOlder | internal/sync/service.go:122-154 | a batch with two versions of one key, newer first, keeps the older one |
| SyncMerge.WrittenValue | internal/sync/service.go:122-154 | for any batch an entry ends with the last of the arrivals that are newer than what was stored |
| SyncMerge.ReplayedItem | internal/sync/service.go:131-132 | after a push an item of its batch would be accepted again if and only if that push pruned its entry |
| SyncMerge.ReplayChangesNothing | internal/sync/service.go:122-173 | replaying a batch accepts nothing and changes no entry beyond the routine prune |
| SyncPaging.SessionDeliversExactlyOnce | internal/sync/service.go:189-236 | whatever time passes between the requests, a finished session's pages concatenate to exactly the rows past since, in number order; no session has more pages than the rows need |
| SyncPaging.SessionFinishesIff | internal/sync/service.go:189-236 | with a time of its own for every request: following the tokens finishes if and only if there are as many requests as the rows need pages and each request comes while the last row of the page before it is within 90 days |
| SyncPaging.StandstillFinishesIff | internal/sync/service.go:189-236 | with no time between the requests only the end of the first page matters |
| SyncPaging.SlowDeviceIsRefused | internal/sync/service.go:189-196 | three rows and three requests: every page would end in the window at the start, and the last request is refused all the same |
| SyncPaging.SlowDeviceCanStart | internal/sync/service.go:142-196 | that device is reachable: one push to a new server, 90 days before |
| SyncPaging.ListingExists | internal/sync/service.go:198-202 | the rows past a number always have one strictly increasing order |
| SyncPaging.FailedResyncFailsAgain | internal/sync/service.go:187-196 | a full pull whose first page ends outside the window fails at all later times too, however its requests are spread, while the table stays |
| SyncPaging.ContinuationGate | internal/sync/service.go:235 | a continuation token passes the gate exactly when its row is within 90 days |
| SyncPaging.AnswerIsUnique | internal/sync/service.go:198-202 | with distinct numbers the page query has one possible answer |
| SyncPaging.PageStartsListing | internal/sync/service.go:198-202 | any answer to the page query is the beginning of the ordered rows past since |
| SyncRaces.TornPullExact | internal/sync/service.go:198-231 | with one whole push between the rows and the token, the copy still has every row up to its cursor if and only if each item the push left in the table had no row before and is already in the copy |
| SyncMoments.TornRunExact | internal/sync/service.go:198-231 | with any run of steps between the rows and the token: if and only if the copy has the rows numbered above all that was reserved when the rows were read |
| SyncMoments.LoosePullExact | internal/sync/service.go:198-237 | the same for any token, and for any later state of the server |
| SyncMoments.RunFollows | internal/sync/token.go:79-91 | rows that a run adds or rewrites carry numbers above all that was reserved before it |
| SyncMoments.PullInsidePushIsTorn | internal/sync/service.go:142-174 | an undivided pull between a push's reservation and its commit is the same as one torn by the whole push |
| SyncMoments.PullInsidePushExact | internal/sync/service.go:142-174 | such a pull does no harm if and only if it has a further page or the push brings nothing new |
| SyncMoments.PullInsidePushLosesRow | internal/sync/service.go:142-174 | an input: a new device pulls while the first push ever has reserved its number |
| SyncMoments.LateGateExact | internal/sync/service.go:188-202 | with a gate passed at any time: device and server show the same after a complete pull if and only if no key without a row was live in the copy before |
| SyncMoments.LateGateHarmless | internal/sync/service.go:188-202 | none was, where the gate would still be passed when the rows are read |
| SyncMoments.LateGateMissesDeletion | internal/sync/service.go:169-202 | a tombstone that is pruned between gate and rows: the device goes on showing the entry |
| SyncMoments.DeletionCanBeMissed | internal/sync/service.go:169-202 | that device and server are reachable from a new deployment |
| SyncRaces.TornPullLosesForGood | internal/sync/service.go:198-231 | otherwise some row is lost, and stays so over every run without a refusal and without another write of it |
| SyncRaces.TornPullLosesRow | internal/sync/service.go:198-231 | an input: the first push ever, inside a new device's first pull |
| SyncRaces.LostForGood | internal/sync/service.go:187-237 | a row at or below the cursor of which the copy has nothing or another version stays so over every run in which no pull is refused and the row is not written |
| SyncRaces.LostStaysLost | internal/sync/service.go:187-237 | no accepted pull delivers such a row |
| SyncRaces.LostShowsIff | internal/sync/service.go:221-224 | the user sees the loss unless the row is a tombstone of an entry that the copy does not show either |
| SyncRaces.PushTokenExact | internal/sync/service.go:142-178 | a device that takes its push token as cursor has every row up to it if and only if its copy has all rows past the old cursor that the push neither replaced nor pruned, and all that it wrote |
| SyncRaces.PushTokenLosesForGood | internal/sync/service.go:178 | otherwise some row is lost for good |
| SyncRaces.PushTokenLosesRow | internal/sync/service.go:178 | an input: after another device's push, a new device pushes nothing and keeps the token |
| SyncRaces.AnyPushExact | internal/sync/token.go:78-91 | a push on any state and with any time leaves a device's copy complete up to its cursor if and only if the copy already has all items that went in under numbers at or below it |
| SyncRaces.ReissuedNumbersExact | internal/sync/token.go:38-91 | the same for the first push after a restart that may have forgotten numbers of rolled-back pushes, on a clock that may have been set back |
| SyncRaces.ReissuedNumbersHarmless | internal/sync/token.go:71-87 | no harm where the stored watermark has reached the cursor or the time of the push is past it |
| SyncRaces.EarlyRestartLosesRow | internal/sync/token.go:38-95 | an input: rollback, pull, restart at once, push; the row is lost |
| SyncRaces.OldTimeLosesRow | internal/sync/service.go:98-142 | an input: rollback, pull, restart after the clock has moved, the clock set back, push; the row is lost |
| SyncToken.TokenRoundTrip | internal/sync/token.go:97-112 | ParseToken returns the number of every token made by Next or Pull |
| SyncToken.ParseTokenExact | internal/sync/token.go:97-112 | a text reads as a number if and only if it is "st_", a 64-bit numeral without an underscore, "_" and six characters; no other text is a token |
| SyncToken.MarkExact | internal/sync/token.go:77-83 | the watermark is the number of the token in memory, and 0 where there is none or it cannot be read |
| SyncToken.LoadOneKeepsGreater | internal/sync/token.go:51-60 | of two readable tokens of a domain the one with the greater number stays |
| Decimal.ParseIntExact | internal/sync/token.go:107 | a text is a number if and only if it is digits with at most one sign, in the 64-bit range |
| SyncToken.TokenKeyInjective | internal/sync/token.go:33-35 | different (account, domain) pairs never share a token |
| SyncToken.BatchNumbers | internal/sync/token.go:84-91 | first and last number of a batch that fits into 64 bits |
| SyncToken.TokensIncreaseIffFits | internal/sync/token.go:84-91 | the new token exceeds the watermark if and only if the batch does not run past the largest 64-bit number |
| SyncToken.LoadRestoresRows | internal/sync/token.go:38-62 | loading the stored rows into an empty store gives exactly their tokens |
| SyncToken.TokenStore.Load | internal/sync/token.go:38-62 | a stored token replaces the one in memory unless both parse and the latter is not smaller |
| SyncToken.TokenStore.Next | internal/sync/token.go:74-95 | reserves the numbers of a batch and makes the last one the token |
| CacheProofs.CacheIsForgetfulMap | internal/cache/disklru.go:150-275 | over every serialized run in which the statements of Commit succeed, the total is the sum of the rows, and a hit returns exactly bytes, size and type of the last stored object |
| CacheProofs.OpKeepsSound | internal/cache/disklru.go:160-351 | each operation keeps the total exact and rows and files coherent, with failing removals and files lost from outside |
| CacheProofs.StoredIsFound | internal/cache/disklru.go:160-275 | the object just stored is found by the next Get |
| CacheProofs.PutStoresIffFits | internal/cache/disklru.go:214-286 | for every chunking without write errors: stored if and only if the stream is at most MaxFileBytes long, and then the file is the concatenation of the chunks |
| CacheProofs.StreamWrites | internal/cache/disklru.go:214-228 | a stream overflows if and only if it is too long; otherwise file and count are exact |
| CacheProofs.StreamKeepsOtherFiles | internal/cache/disklru.go:214-228 | writing a stream touches no file but its own temporary one |
| CacheProofs.WriterAccounts | internal/cache/disklru.go:218-226 | the writer's count equals its file's length, short and failed writes included |
| CacheProofs.CommitTotalExact | internal/cache/disklru.go:264-272 | the total stays as exact as it was if and only if the old size was read or there was none to subtract; otherwise it is off by exactly that size |
| CacheProofs.CommitCoherentExact | internal/cache/disklru.go:255-271 | rows and files stay coherent if and only if it is not the case that the file was replaced by other bytes and the row's upsert failed |
| CacheProofs.CommitOutcomeExact | internal/cache/disklru.go:232-275 | when a Commit stores, declines and fails; its temporary file never stays; unless stored no row changes |
| CacheProofs.ErrorKeepsOut | internal/cache/disklru.go:218-223 | a stream with a write error is not published |
| CacheProofs.GetOutcomeExact | internal/cache/disklru.go:160-188 | when a Get hits, misses and fails; it drops its row only on a miss, refreshes the access time only on a hit, and touches nothing else |
| CacheProofs.GetKeepsDrift | internal/cache/disklru.go:160-188 | hit, miss, error and drift repair leave the difference between total and rows as it is, exact totals included |
| CacheProofs.GetIsExactOrMiss | internal/cache/disklru.go:160-188 | a hit returns the last stored object of its key |
| CacheProofs.BatchKeepsDrift | internal/cache/disklru.go:341-351 | so does a batch, whichever of its removals and row deletions fail, and other rows stay |
| CacheProofs.BatchExact | internal/cache/disklru.go:341-351 | a batch removes exactly the files of its entries that are not busy, and exactly those of their rows whose deletion succeeds |
| CacheProofs.RoundTakesOldest | internal/cache/disklru.go:319-351 | when nothing fails a round removes exactly one batch, the oldest by access time, or everything |
| CacheProofs.HitSurvivesRound | internal/cache/disklru.go:183-184 | least recently used: no round that leaves a row takes the entry of the latest hit |
| CacheProofs.PathInjective | internal/cache/disklru.go:150-155 | different keys never share a file, in both layouts |
| CacheModel.PathForExact | internal/cache/disklru.go:150-155 | where a file lies in both layouts |
| CacheModel.WatermarkExact | internal/cache/disklru.go:303-305 | the watermark is the product of the two limits without its fraction |
| CacheRaces.TwoCommitsExact | internal/cache/disklru.go:265-272 | a Commit that runs between another Commit's read and upsert of the same key keeps the total exact if and only if it kept the size |
| CacheRaces.TwoRepairsExact | internal/cache/disklru.go:171-178 | a Get that repairs a row inside another Get that repairs it keeps the total exact if and only if the row's size is 0 |
| CacheRaces.CommitBeforeDropExact | internal/cache/disklru.go:319-350 | a Commit between the query of an eviction (or a repair) and its deletion keeps it exact if and only if it kept the size |
| CacheRaces.DropBeforeUpsertExact | internal/cache/disklru.go:265-272 | an eviction of the row between a Commit's read and its upsert keeps it exact if and only if the row's size was 0 |
| CacheRaces.EvictInsideRepairExact | internal/cache/disklru.go:171-351 | an eviction of the row inside a repair of it, or the repair inside the eviction, keeps it exact if and only if the row's size is 0 |
| CacheRaces.StraddlingGetExact | internal/cache/disklru.go:162-271 | a Get that reads its row before a Commit and opens its file after the rename returns the new object; size and type are right if and only if the Commit kept them |
| CacheRaces.CommitUpserts | internal/cache/disklru.go:264-272 | an undisturbed Commit is the upsert with the size of the moment |
| CacheRaces.RepairDrops | internal/cache/disklru.go:171-178 | an undisturbed repair is the deletion with the size of the moment |
| CacheRaces.RemovalDrops | internal/cache/disklru.go:341-351 | and so is an undisturbed removal of an eviction |
| CacheRaces.DriftStaysUntilReopened | internal/cache/disklru.go:113-351 | over every serialized run a total that is off stays off by the same amount until the cache is opened again, and is exact from then on |
| DiskLRU.DiskLRU.Evict | internal/cache/disklru.go:316-357 | whatever fails: the total stays exact, a row goes only after its file, no other file goes, and an entry whose file is busy keeps file and row; when nothing fails it ends at or below the watermark, an oldest part of whole batches (or everything) went, the files that went are exactly those of the rows that went, and before the last batch the total was above the watermark |
| DiskLRU.DiskLRU.EvictRound | internal/cache/disklru.go:319-351 | the same for one round over the oldest rows, with any failures |
| DiskLRU.DiskLRU.Get | internal/cache/disklru.go:160-188 | result and new state for every answer of disk and database |
| DiskLRU.DiskLRU.SetLimits | internal/cache/disklru.go:143-147 | the new limits are stored, nothing else changes, and an eviction is due exactly when the total exceeds the new watermark |
| DiskLRU.DiskLRU.constructor | internal/cache/disklru.go:110-117 | the total of an opened cache is the sum of its rows |
| DiskLRU.StreamWriter.Write | internal/cache/disklru.go:214-228 | takes every byte from the caller; file, count and flags as the model says |
| DiskLRU.Put | internal/cache/disklru.go:279-286 | where nothing fails the stream is stored if and only if it fits, and its file is the stream; whatever fails, no other file and, unless stored, no row is touched |
| DiskLRU.StreamWriter.Copy | internal/cache/disklru.go:284 | copying a stream writes all of its chunks in order |
| DiskLRU.StreamWriter.Rename | internal/cache/disklru.go:253-262 | succeeds if and only if one of the first five attempts does |
| DiskLRU.StreamWriter.Commit | internal/cache/disklru.go:232-275 | new state and outcome for every answer of disk and database, and when an eviction is due |
| SingleFlight.AllRequestsFinish | internal/img/service.go:93-107 | any N requests: no run is longer than 5N(N + 1) steps, a run that cannot go on has finished all of them, with at most N leader phases |
| SingleFlight.RequestsFollowTheLoop | internal/img/service.go:95-107 | in every run every request goes through the retry loop and nothing else: it is done exactly when its last step was a lookup that hit or its leaving as leader after a fetch, and it enters a flight only right after a lookup of its own that missed |
| SingleFlight.RunsAreSafeAndFinite | internal/img/service.go:93-107 | in every interleaving: one leader a key, flights closed at most once and in the map exactly while open, every open flight led, every waiter's flight closed or in the air; each step lowers a measure |
| SingleFlight.SomeStepEnabled | internal/img/service.go:95-107 | while a request is unfinished some request can step: no wake-up is lost |
| SingleFlight.StepDecreases | internal/img/service.go:95-107 | every step lowers the measure, a wake-up of all waiters included |
| SingleFlight.LeaderPhasesAreCounted | internal/img/service.go:209-218 | each leader phase belongs to a different request |
| SingleFlight.StepKeepsOneLeader | internal/img/service.go:209-226 | at most one request of a key lies between becoming leader and leaving |
| SingleFlight.StepKeepsMapOpen | internal/img/service.go:220-226 | no channel is closed twice, and only open flights are in the map |
| SingleFlight.StepKeepsWaiters | internal/img/service.go:95-107 | a waiter's flight is closed or still the one in the air for its key |
| SingleFlight.FlightTable.EnterFlight | internal/img/service.go:209-218 | the first request of a key opens a flight and leads, the others get that flight |
| SingleFlight.FlightTable.LeaveFlight | internal/img/service.go:220-226 | takes the flight out of the map and closes it |
| RecoverQueue.QueueIsSafe | internal/recover/queue.go:76-129 | in every interleaving: one worker a job, slots in use equal the workers that hold one and stay within capacity, every fetching row is in flight |
| RecoverQueue.FinishedWorkerResult | internal/recover/queue.go:111-125 | in every interleaving a worker that has written leaves the result of the first successful source, and not_found exactly when it asked all and all failed |
| RecoverQueue.QueueDrains | internal/recover/queue.go:76-129 | every run has at most (sources + 8) steps a process; where none is possible all have ended, nothing is in flight, no slot is held and no row is left fetching |
| RecoverQueue.SomeMoveEnabled | internal/recover/queue.go:98-109 | while a process is not at its end some process can step: the semaphore never locks up |
| RecoverQueue.SharedLookupExact | internal/recover/service.go:186-191 | with sharing the answer is the longest-lived unexpired ready row of any account, without one the longest-lived not_found row, and without either none |
| RecoverQueue.OwnLookupExact | internal/recover/service.go:192-197 | without sharing the answer is the account's own unexpired ready or not_found row |
| RecoverQueue.LookupAnswers | internal/recover/service.go:184-203 | every lookup has an answer, with and without sharing |
| RecoverQueue.OnlyItsWorkerWritesRow | internal/recover/queue.go:76-129 | a row changes only in a step of the one worker of its job |
| RecoverQueue.StepKeepsValid | internal/recover/queue.go:76-129 | each step of a query or a worker keeps the whole invariant |
| RecoverQueue.VerdictAnswersUntilExpiry | internal/recover/service.go:192-203 | an account's own lookup finds a worker's verdict exactly until the time to live of its kind is over |
| RecoverQueue.PlaceholderNeverAnswers | internal/recover/queue.go:86-90 | a fetching row answers no lookup, shared or not; it keeps the pages and the source of an older row, expires after 15 minutes, and marking it changes no other row |
| RecoverQueue.RefetchExact | internal/recover/queue.go:76-94 | in every run a ready row becomes fetching exactly by the mark of a process of its job; that process has looked when no row of the account answered, and reserved the key later, with no worker left and the row as it still is |
| RecoverQueue.ReservedIsMarked | internal/recover/queue.go:78-93 | once a process has reserved, its next step makes the row fetching, whatever the others do before |
| RecoverQueue.LateEnqueueRefetches | internal/recover/service.go:148-175 | a run from an empty queue: two queries of one job look at once, a worker leaves a ready row, and the second query makes it fetching before it has expired |
| RecoverQueue.VerdictIsFirstSuccess | internal/recover/queue.go:112-125 | the verdict of a list of answers is its first success |
| RecoverQueue.TrySources | internal/recover/queue.go:112-125 | the loop stops at the first success in priority order |
| RecoverQueue.JobKeyInjective | internal/recover/queue.go:77 | different jobs have different keys |
| RecoverQueue.Queue.Reserve | internal/recover/queue.go:78-84 | only one caller may start a worker for a job in flight |
| RecoverQueue.Queue.Mark | internal/recover/queue.go:86-90 | the placeholder keeps pages and source of an older row and expires after 15 minutes |
| RecoverQueue.Queue.RunJob | internal/recover/queue.go:112-127 | what a worker writes, with the time to live in force when it writes |
| RateLimit.SweepIsInvisible | internal/common/ratelimit.go:41-85 | if a bucket refills within its time to live, the sweeping limiter answers every sequence of requests like one that never forgets |
| RateLimit.SweepInvisibleIff | internal/common/ratelimit.go:41-85 | that condition is exact: the sweeping limiter answers all sequences of requests like one that never forgets if and only if r * ttl >= burst |
| RateLimit.ForgettingRun | internal/common/ratelimit.go:45-54 | for every limiter that fails the condition, a run with more than 1024 keys on which the two answer differently |
| RateLimit.SlowRefillSweepShows | internal/common/ratelimit.go:78-85 | otherwise a bucket left alone past its time to live refuses part of a burst that a fresh one admits whole |
| RateLimit.WhichLimitersSweepInvisibly | internal/auth/routes.go:37-41 | the registration limiter does not satisfy the condition; a 60 a minute limiter with burst 10 does |
| RateLimit.WindowBound | internal/common/ratelimit.go:41-85 | for every limiter: in any window of length T a key is admitted at most burst + r * T times plus burst - min(r * ttl, burst) for each of its idle gaps longer than ttl, and these gaps fit into T; so burst + r * T where a bucket refills within its time to live |
| RateLimit.RegistrationsPerHour | internal/auth/routes.go:37-41 | the registration limiter lets at most 21 requests of a key through in any hour |
| RateLimit.TakeExact | internal/common/ratelimit.go:54-61 | a request is admitted if and only if a whole token is there; it takes just that one, and a refused request costs nothing |
| RateLimit.RefusedThenAdmitted | internal/common/ratelimit.go:57-61 | a refused key that stays away for the time it was told is then admitted, whatever other keys do and whether or not its bucket is swept in between |
| RateLimit.RetryAfterIsEnough | internal/common/ratelimit.go:57-61 | the reported seconds suffice for one token from any level |
| RateLimit.RetryAfterIsLeast | internal/common/ratelimit.go:57-61 | the reported seconds are the least whole number, one at least, in which a token drips in |
| RateLimit.ForgottenExact | internal/common/ratelimit.go:45-47 | with at most 1024 buckets a request forgets none; with more, exactly those not seen for the time to live |
| RateLimit.Limiter.Allow | internal/common/ratelimit.go:41-62 | answer and new buckets of one request |
| RateLimit.Limiter.Sweep | internal/common/ratelimit.go:78-85 | drops exactly the buckets not seen for the time to live |
| Mirror.Fetch | internal/recover/sources/mirror.go:33-58 | the result is exactly the present pages below the first two absences in a row or page 50; errors by kind; the number of probes |
| Mirror.PresentPagesExact | internal/recover/sources/mirror.go:41-56 | those pages are all the present ones below the stop and no others |
| Mirror.PresentPagesIncrease | internal/recover/sources/mirror.go:41-56 | they come in strictly increasing order |
| Mirror.PageUrlInjective | internal/recover/sources/mirror.go:35-45 | different pages are probed at different addresses |
| Mirror.PageUrlExact | internal/recover/sources/mirror.go:35-45 | page 0 has no number in its address, page n has n in decimal |
| Mirror.StopExact | internal/recover/sources/mirror.go:44-56 | the stop in plain words: page 50, or the first place after two missing pages in a row, page 0 not counted |
| Mirror.StopIsUnique | internal/recover/sources/mirror.go:44 | there is one place where probing ends |
| Accounts.WalkIncreases | internal/admin/service.go:134-186 | following the cursors, while accounts come and go, returns strictly increasing (created_at, id) pairs |
| Accounts.WalkIsLexicographic | internal/admin/service.go:146-160 | the order is by created_at and then by id, and no account comes twice |
| Accounts.WalkIsComplete | internal/admin/service.go:134-186 | a finished walk has returned every account that existed throughout |
| Accounts.CursorRestoresPosition | internal/admin/service.go:137-183 | the next page starts exactly behind the last account of the page before |
| Accounts.CursorPositionExact | internal/admin/service.go:137-148 | which texts are cursors, and for which positions; only the empty text stands for the first page |
| Accounts.ListAccounts | internal/admin/service.go:134-186 | one request: refusal of a bad cursor, else the page and its cursor |
| Cursor.CursorRoundTrip | internal/common/pagination.go:13-32 | every cursor decodes to the time and the id it was made from, colons in the id included |
| Cursor.DecodedCursorIsWellFormed | internal/common/pagination.go:18-32 | whatever decodes is a 64-bit number, a colon and a non-empty id |
| Cursor.DecodeEncode | internal/common/pagination.go:14-19 | unpadded URL-safe base64 is undone by the decoder, line breaks skipped, on all byte strings |
| Cursor.SextetExact | internal/common/pagination.go:14 | the alphabet of section 5 of RFC 4648 |
| Cursor.QuantaExact | internal/common/pagination.go:19 | which texts decode, and to how many bytes |
| Cursor.StripBreaksExact | internal/common/pagination.go:19 | line breaks, and nothing else, are skipped wherever they stand |
| InviteCodes.FieldsAreRuns | internal/admin/settings.go:64-66 | the fields of a text are all its maximal separator-free runs, from left to right |
| InviteCodes.UniqueKeepsFirstOccurrences | internal/admin/settings.go:62-71 | repetitions are dropped and first occurrences kept in order |
| InviteCodes.SettingRoundTrip | internal/admin/settings.go:61-160 | the list in use is the duplicate-free list of the text's runs, and empty if and only if the text is all separators |
| InviteCodes.ParsingIsIdempotent | internal/admin/settings.go:61-73 | parsing a stored setting again stores the same text |
| InviteCodes.ParseInviteCodes | internal/admin/settings.go:61-73 | the loop computes the comma-joined, duplicate-free fields |

## Left out

- HTTP handlers, routing, CORS, relay forwarding, configuration, logging: no deep invariant.
- Encryption, JSON and the structural checks on item data: payloads are opaque text, and the checks that
  `validateItems` makes on JSON are a parameter of the model. The random part of a token is any six
  characters.
- SQL: a table is a map, a query with ORDER BY and LIMIT returns any answer that `Query.FirstBy` allows, a
  transaction is one step that commits or rolls back. Database errors of Pull are not modelled.
- `latest_updated_at`, the `conflicts` field of a push reply, the `TTLs` and `Config` read-backs.
- SyncConvergence.Convergence: a pull reads its clock, rows and token in one step; a push reserves and commits in
  one step; the gate's clock is the latest time ever read; a restart waits for the clock to pass numbers that
  rolled-back pushes took, and a push after it works with a later time; the device keeps only tokens from
  pulls. `SyncInterleaving`, `SyncMoments` and `SyncRaces` have the exact conditions without these. No batch runs
  past the largest 64-bit number (`Fits`); `SyncToken.TokensIncreaseIffFits` covers the others.
- SyncInterleaving.DividedConvergence: one device with one pull at a time. The last two points on restarts and
  tokens, and `Fits`, are assumed here too.
- SyncDiscipline.GateSoundness: for since numbers above now - 2^63 (`GateExact` covers the others), and with the
  gate read on a clock that is not behind the prunes; `SyncMoments.LateGateExact` covers an earlier gate.
- SyncMerge.RunIsMergeOfArrivals: batches have distinct keys; `WrittenValue` covers all batches.
- SyncPaging.SessionDeliversExactlyOnce: the table does not change during the session; the convergence
  theorem covers changing tables.
- Opening the cache: defaults for missing configuration values and directory creation; the eviction at the
  end of opening is a separate call of `Evict`.
- CacheProofs.CacheIsForgetfulMap: operations are serialized. For the overlaps that make the total drift
  `CacheRaces` gives the exact conditions for two operations at a time; longer interleavings are not modelled. The
  bytes are those handed to the writer; whether they are the upstream's is not decided by this code.
- DiskLRU.DiskLRU.Evict: at most `rounds` rounds, because the source retries the same oldest batch for as
  long as its removals fail; no bound is lost when nothing fails. The query for the oldest rows succeeds.
- A temporary file that cannot be removed, and the pauses between rename attempts and between batches.
- SingleFlight.AllRequestsFinish: every upstream fetch returns; a panic in it would leave its flight open.
- RecoverQueue.QueueDrains: every source answers. Its bound does not count changes of the times to live.
- RecoverQueue.QueueIsSafe: no crash, no database failure, and no fetching row left over at the start. A
  row's `meta` and the numeric check of the pid are left out, and the sources' answers are arbitrary.
- RateLimit.Limiter.Allow: one reading of the clock per call, real numbers for the rate library's floats,
  and no `SetRate`.
- Accounts.ListAccounts: the rows that the query returned are a parameter; the counts of devices and sync
  entries in them are left out.
- Mirror.Fetch: the answers of the network are a function of the page number.
- Account registration and token rotation, cascade deletion, settings precedence, migrations.
