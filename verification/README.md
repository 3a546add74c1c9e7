# Verified model of the YClaw control plane

Dafny models, with proofs, of the parts of the repository whose behaviour only shows over whole
runs: the AgentHub rate limiter and commit index, the AO circuit breaker and directive queue, the
task registry, the memory pipeline, the approval lifecycle, the agent tool loop and the `.env`
printer and parser. `dafny verify dfyconfig.toml` checks everything.

Each module has the same shape. Specification functions say what one operation or one atomic step
does to the state; a class or method carries out the operation the way the program does, with loops
and updates in place, and is proved equal to its specification; lemmas then state what every run of
those steps keeps. Where operations overlap across `await`, the steps are events that may interleave
freely.

| file | what it models |
|---|---|
| `RateLimiter.dfy` | minute buckets, the sliding hour, the cleanup pass, and a log of what was really allowed |
| `CommitIndex.dfy` | indexing a pushed list in one transaction with parent stubs; lineage, leaves, children |
| `MemoryStore.dfy` | storing facts: write gate, merge, conflict resolution, insert, triple upsert; flushing |
| `Strength.dfy` | exponential forgetting with a floor, the column's rounding, recall, archival |
| `Categories.dfy` | versioned summaries and their archive |
| `CircuitBreaker.dfy` | retries, the per-repository circuit, its callbacks, overlapping calls |
| `DirectiveQueue.dfy` | the shared Redis list of waiting directives |
| `TaskRegistry.dfy` | task hashes and per-agent sorted sets with their expiry |
| `TaskWire.dfy` | task fields as the strings Redis keeps |
| `Approvals.dfy` | decisions and expiry passes as interleaved steps |
| `ToolLoop.dfy` | the bounded loop, its transcript, SIGTERM checkpoints and resumption |
| `EnvFile.dfy` | printing the `.env` file and loading it back |

## Assumptions

- Times are inputs. A clock does not run backwards; two reads of it within an operation may differ
  where the source reads it twice (the rate limiter's check and write, a spread-out store).
- Write-gate verdicts, similarity matches, model answers, HTTP answers, signals, generated ids, the
  order Redis gives equal scores and the keys a scan repeats are inputs. Generated ids are unused.
- Git is a finite map from hash to first parent and message, acyclic by a rank, and has the parents of its commits. It is one map for all
  pushes: while git grows and always has the parents of its commits, a push sees the same with the git
  of its day as with any later one (`CommitIndex.LaterCommitsChangeNothing`), and a push that failed
  because a hash was not there yet left no trace, so no other table can be reached.
- The pattern search and the trimming and lower-casing of strings are one fixed function each, with
  idempotent normalisation; forgetting is any curve `f` with `f(a + b) = f(a) f(b)` and `0 < f <= 1`.
- A table of printed keys has one-line titles and keys of capital letters, digits and underscores, as
  the eleven groups at `packages/cli/src/generators/env-file.ts:17-85` have.

## Where the code does not do what its names or comments say

- `maxPerHour` is not a bound for an hour. Because calls are rounded down to the minute the exact
  window is 59 minutes, and an hour can see twice the maximum (`RateLimiter.SafeLengthIsExactly59Minutes`).
- The content of the commit index depends on the order of the pushed list unless the list meets a
  condition (`CommitIndex.OrderIsIrrelevantIff`; for an input, `CommitIndex.OrderDecidesContent`), and the
  newest-first order of `git rev-list` makes parents into stubs nobody is credited for
  (`CommitIndex.CreditIffParentsFirst`; for an input, `CommitIndex.NewestFirstLosesCredit`).
- A stub makes queries fail. The children query scans every matching row into plain strings
  (`infra/agenthub/internal/db/db.go:297-311`), so one stub among the children turns the answer into a database
  error, and a lineage stops at its first stub with an error. After an ordinary newest-first push the
  children of an indexed root cannot be listed (`CommitIndex.NewestFirstBreaksChildren`); all queries
  answer exactly when every push that was not rolled back had parents first and brought its missing
  parents (`CommitIndex.EveryQueryAnswersIff`).
- The circuit's change callback is said to fire when an open circuit closes
  (`packages/core/src/ao/bridge.ts:53-55`, `packages/core/src/bootstrap/agents.ts:1750-1752`). A window that runs out is
  reset without it, so after an ordinary outage no recovery is announced (`CircuitBreaker.OpeningsAreAccounted`;
  for an input, `CircuitBreaker.RecoveryGoesUnannounced`).
- A merged fact changes the item's text and leaves its triple alone, so the two can disagree
  (`MemoryStore.TripleAgreesWithTextIff`, `MemoryStore.MergeAgreesIff`).
- The strength column keeps three decimals. Sweeps close together round back to where they began
  (`Strength.NeverFadesIff`), and with the half-life of 30 days and the daily sweep the comments ask for an
  item that is never recalled stops above the floor and is never archived
  (`Strength.ReachesFloorIff`, `Strength.DailySweepsNeverReachFloor`).
- The queue's maximum of 50 is checked before the push, so overlapping enqueues exceed it
  (`DirectiveQueue.DepthLimitHoldsIffSerial`).
- `decide` does not look at the status again when it writes, so a race can announce one request twice
  (`Approvals.AnnouncedOnceIffHeldAlone`; for an input, `Approvals.RaceAnnouncesTwice`).
- The comment on `findByAgentAndIssue` (`packages/core/src/actions/task.ts:511-514`) speaks of pending and
  in-progress tasks; the code also takes stuck ones (`TaskRegistry.FallbackPicksNewest`; for an
  input, `TaskRegistry.FallbackPicksStuck`).
- A store's ZADD can land in a set that expires before the EXPIRE that would renew it, and the new task
  is then missing from the index (`TaskRegistry.SpreadStoreAgreesIff`; for an input,
  `TaskRegistry.SetLapsesUnderAStore`).
- The checkpoint's `toolCallsCompleted` is the round number, and the loop starts over when a SIGTERM
  finds no Redis to save it in (`ToolLoop.GuaranteedIff`; for an input, `ToolLoop.UnsavedInterruptionStartsOver`).
- A value that comes back unchanged on its own is lost if an earlier value has a newline followed by
  its key (`EnvFile.ValueSurvivesIff`; for an input, `EnvFile.NewlineOverridesALaterKey`); and inline comments are cut from quoted values too,
  although the comment at `packages/cli/src/utils/load-env.ts:43` says only unquoted ones. A comment after a
  quoted value is cut as well, but then the quotes stay in the value (`EnvFile.CommentedLineLoads`).

## Model

| member | source | states |
|---|---|---|
| `RateLimiter.StepKeepsInv` | infra/agenthub/internal/db/db.go:494-527 | after every call and cleanup the bucket table is the log of allowed calls rounded down to the minute, as far back as any later check can look, with one row per key and minute |
| `RateLimiter.StepKeepsGuard` | infra/agenthub/internal/db/db.go:494-522 | an allowed call never overfills any closed 59-minute window of its agent and action, past or straddling |
| `RateLimiter.DenialIsJustified` | infra/agenthub/internal/db/db.go:498-508 | a refused call has at least the maximum of allowed calls in the true last hour behind it |
| `RateLimiter.AtMostLimitIn59Minutes` | infra/agenthub/internal/db/db.go:494-522 | in any run, any closed window of 3540 seconds holds at most maxPerHour allowed calls of one agent and action |
| `RateLimiter.AtMostTwiceLimitInHour` | infra/agenthub/internal/db/db.go:494-522 | in any run, any closed hour holds at most twice maxPerHour |
| `RateLimiter.TwiceLimitIn3541Seconds` | infra/agenthub/internal/db/db.go:494-522 | for every maximum there is a run with twice the maximum allowed within 3541 seconds |
| `RateLimiter.SafeLengthIsExactly59Minutes` | infra/agenthub/internal/db/db.go:494-522 | the window lengths for which the maximum holds in every run are exactly those up to 3540 seconds |
| `RateLimiter.CleanupIsInvisible` | infra/agenthub/internal/db/db.go:524-527 | two tables refining the same log give the same answers to all later calls, whatever cleanups are interleaved in one of the runs |
| `RateLimiter.CleanupNeverChangesAnAnswer` | infra/agenthub/internal/db/db.go:524-527 | deleting the cleanups from a run changes none of its answers |
| `RateLimiter.CleanupLeaves121Buckets` | infra/agenthub/internal/db/db.go:524-527 | right after a cleanup a key has at most 121 buckets |
| `RateLimiter.RateLimitTable.CheckAndIncrementRateLimit` | infra/agenthub/internal/db/db.go:494-522 | allowed exactly while the buckets younger than 3600 seconds sum below the maximum; a grant adds one to the bucket of the write's minute, or makes it, and leaves every other row; a refusal leaves the table alone and is justified by the log |
| `RateLimiter.RateLimitTable.CleanupRateLimits` | infra/agenthub/internal/db/db.go:524-527 | exactly the rows more than 7200 seconds old go, the log of grants stays, and at most 121 buckets a key are left |
| `CommitIndex.PushWorks` | infra/agenthub/internal/server/git_handlers.go:99-130 | a push of hashes git knows succeeds, keeps every old row, indexes the whole list, gives every row git's parent and message, credits only listed hashes, and adds a stub only as parent of a credited row |
| `CommitIndex.SuccessEffect` | infra/agenthub/internal/server/git_handlers.go:99-130 | the same effect of every push that succeeds, also when git does not know a listed hash that is already indexed |
| `CommitIndex.OneInserts` | infra/agenthub/internal/server/git_handlers.go:101-127 | neither the stub insert nor the commit insert meets an existing primary key |
| `CommitIndex.PushKeepsIndexClosed` | infra/agenthub/internal/server/git_handlers.go:99-130 | if list and index together are closed under first parent, the new index is closed, holds exactly the old rows and the list, and has git's parents |
| `CommitIndex.ClosedPushIgnoresOrder` | infra/agenthub/internal/server/git_handlers.go:99-130 | under that closure the hash, parent and message content does not depend on the order of the list |
| `CommitIndex.OrderIsIrrelevantIff` | infra/agenthub/internal/server/git_handlers.go:99-130 | in general the content is independent of the order exactly when every unlisted, unindexed grandparent is the parent of a new listed commit that has no new listed child |
| `CommitIndex.OrderDecidesContent` | infra/agenthub/internal/server/git_handlers.go:112-118 | of a, its parent b and b's parent c, pushing a and b newest first leaves c out and oldest first brings it in |
| `CommitIndex.RepushChangesNothing` | infra/agenthub/internal/server/git_handlers.go:102-105 | pushing the same list again, by any agent, changes nothing |
| `CommitIndex.CreditIffParentsFirst` | infra/agenthub/internal/server/git_handlers.go:112-125 | every new listed row carries the pushing agent exactly when each parent that is not indexed and is listed comes before its child |
| `CommitIndex.NewestFirstLosesCredit` | infra/agenthub/internal/server/git_handlers.go:112-125 | pushed newest first, b becomes a row without an agent although it was listed |
| `CommitIndex.EveryReachableIndexIsSound` | infra/agenthub/internal/server/git_handlers.go:99-130 | after any sequence of pushes, failed ones rolled back, rows agree with git and every stub is the parent of an indexed commit |
| `CommitIndex.ChainIsGits` | infra/agenthub/internal/db/db.go:265-280 | in a closed index the first-parent chain of a row is git's, ending at a root |
| `CommitIndex.LeavesQueryNeverFails` | infra/agenthub/internal/db/db.go:282-295 | in every reachable index the leaves are exactly the rows that are no row's parent, none of them without an agent, so scanning them never errors |
| `CommitIndex.EveryCommitIsUnderALeaf` | infra/agenthub/internal/db/db.go:282-295 | in every reachable index each commit lies on the first-parent chain of a row the leaves query selects |
| `CommitIndex.ChildrenAnswerIff` | infra/agenthub/internal/db/db.go:253-263 | the children query answers, with exactly the rows whose parent is asked for, exactly when none of those rows is without an agent |
| `CommitIndex.AncestorIffRowsLead` | infra/agenthub/internal/db/db.go:253-280 | c is on the first-parent chain of h exactly when the parent column leads from h to c |
| `CommitIndex.AncestorIffReachedByChildren` | infra/agenthub/internal/db/db.go:253-312 | repeated children queries that answer lead from c to h exactly when c is on the first-parent chain of h and no row queried on the way has a NULL-agent child |
| `CommitIndex.NewestFirstBreaksChildren` | infra/agenthub/internal/db/db.go:297-311 | a root pushed, then two commits newest first: the index is closed and holds all three, yet the query for the root's children errors and no descendant of it is found |
| `CommitIndex.PushLeavesNoStubIff` | infra/agenthub/internal/server/git_handlers.go:99-130 | a push leaves no stub exactly when there was none, its list has parents first, and every new commit's parent is listed or indexed |
| `CommitIndex.EveryQueryAnswersIff` | infra/agenthub/internal/db/db.go:253-312 | lineage, children and leaves answer for every hash exactly when every push so far met those conditions or named a hash git does not know, so that it was rolled back |
| `CommitIndex.LaterCommitsChangeNothing` | infra/agenthub/internal/server/git_handlers.go:107-117 | a push whose hashes and their parents git already has gives the same table whatever commits git gets later |
| `CommitIndex.CommitTable.GetChildren` | infra/agenthub/internal/db/db.go:253-263 | the matching rows in the database's order, or an error and no rows exactly when one of them has no agent |
| `CommitIndex.CommitTable.GetLeaves` | infra/agenthub/internal/db/db.go:282-295 | exactly the rows that are no row's parent, in the database's order, never an error |
| `CommitIndex.CommitTable.IndexCommits` | infra/agenthub/internal/server/git_handlers.go:99-130 | all of the list or none of it; a success keeps every old row, has every listed hash, gives new rows git's parent and message, credits only listed ones to the pushing agent, and adds a row without an agent only as the parent of a new listed one; a failure is due to a hash git does not know, reports the hashes before it and leaves the table as it was |
| `CommitIndex.CommitTable.GetLineage` | infra/agenthub/internal/db/db.go:265-280 | starts at the hash, each row the parent of the one before; ends at the root or an unindexed parent with the whole first-parent chain, or before the first row without an agent with an error |
| `MemoryStore.MergeKeepsTruth` | packages/memory/src/dedup.ts:62-100 | an early-return merge gives the item the new text and 5 hundredths more confidence, up to 1, keeps every other column, every other item and the triples, and keeps one active truth |
| `MemoryStore.ArchiveKeepsTruth` | packages/memory/src/strength.ts:102-113 | archiving any set of items only makes those inactive, and keeps one active truth |
| `MemoryStore.ResolveFreesKey` | packages/memory/src/conflict-resolution.ts:83-128 | resolving a conflict makes the active holders of the key inactive and changes nothing else about them or about any other item or triple; nobody holds the key then, and one active truth is kept |
| `MemoryStore.UpsertStates` | packages/memory/src/triples.ts:39-98 | after an upsert the key's one active triple states the new object, and every other key keeps its active triple |
| `MemoryStore.UpsertWritesRows` | packages/memory/src/triples.ts:39-98 | row by row: the same object keeps its row and the greater confidence, another object is archived, a row with all of the new fact's fields is added unless the same was stated, and every other triple stays |
| `MemoryStore.InsertWritesRows` | packages/memory/src/memory-manager.ts:185-261 | row by row: an insert adds one item with the fact's agent, text, confidence and category and the extracted key, makes former holders of that key inactive, changes no other item, and writes the triples so |
| `MemoryStore.InsertKeepsTruth` | packages/memory/src/memory-manager.ts:185-261 | an insert, after conflict resolution and with its triple upsert, keeps one active truth, so the new item's triple states the object extracted from it |
| `MemoryStore.StoreKeepsTruth` | packages/memory/src/memory-manager.ts:101-323 | every store, whether refused, merged or inserted, keeps one active truth |
| `MemoryStore.EveryRunKeepsOneTruth` | packages/memory/src/memory-manager.ts:101-323 | in every serial run of stores, archivals and maintenance each agent, subject and predicate has at most one active item and at most one active triple, and every active item with a key has an active triple whose object is the one extracted when it was inserted |
| `MemoryStore.TripleAgreesWithTextIff` | packages/memory/src/memory-manager.ts:147-182 | an active item's triple states what its current text says exactly when that text extracts to what the first text did |
| `MemoryStore.MergeAgreesIff` | packages/memory/src/memory-manager.ts:147-182 | a merge leaves text and triple in agreement exactly when the new text extracts to what the key's active triple states, which can be looked up before the merge |
| `MemoryStore.MergedTextDrifts` | packages/memory/src/memory-manager.ts:147-182 | two facts with different objects, the second merged into the first, leave text and triple disagreeing |
| `MemoryStore.MemoryManager.CheckAndDedup` | packages/memory/src/dedup.ts:40-118 | merges exactly when the search found an item, which gets the text and 5 hundredths of confidence up to 1; every other row and column stays |
| `MemoryStore.MemoryManager.CheckAndResolveConflict` | packages/memory/src/conflict-resolution.ts:83-128 | reports a conflict exactly when an active item held the key; that item becomes inactive, and every other item is the row it was |
| `MemoryStore.MemoryManager.UpsertTripleRow` | packages/memory/src/triples.ts:39-98 | archive and insert leave the triples the upsert specifies |
| `MemoryStore.MemoryManager.StoreFact` | packages/memory/src/memory-manager.ts:101-323 | refused, merged or inserted by verdict and match; row by row, a refusal changes nothing, a merge only its item, and an insert adds the item with the fact's own columns, makes the key's former holder inactive and changes no other item; one active truth is kept |
| `MemoryStore.MemoryManager.FlushWorkingMemory` | packages/memory/src/memory-manager.ts:363-433 | the tables end as the pipeline leaves them after the facts in turn, each matched against the tables of its turn; every fact is counted once, the refused ones as rejected, and the items grow by the number stored |
| `Strength.NeverRecalledForgetsByTheClock` | packages/memory/src/strength.ts:79-97 | of the formula before the column rounds it: any schedule of decay runs on a never-recalled item equals one run over the whole interval, floor included |
| `Strength.RecalledForgetsByTheSum` | packages/memory/src/strength.ts:79-97 | of the formula before the column rounds it: a recalled item ends at the floor or at its strength times the factor of the summed times since the access |
| `Strength.MoreRunsForgetMore` | packages/memory/src/strength.ts:79-97 | more runs never leave the stored strength of a recalled item above that of one run at the end |
| `Strength.RunIsLostIff` | packages/memory/migrations/006_phase3_tables.sql:12 | with NUMERIC(4,3) a run leaves a stored strength above the floor unchanged exactly when it would take at most 0.0005 |
| `Strength.FrequentRunsNeverForget` | packages/memory/migrations/006_phase3_tables.sql:12 | a never-recalled item that is swept that often keeps its whole row but for the time of update, however long the schedule |
| `Strength.NeverFadesIff` | packages/memory/migrations/006_phase3_tables.sql:12 | after any schedule the stored strength of a never-recalled item is what it was exactly when every run of it came that soon |
| `Strength.PeriodTooShortIff` | packages/memory/src/strength.ts:74-78 | at a fixed period all runs come that soon exactly when one period takes at most 0.0005 |
| `Strength.ReachesFloorIff` | packages/memory/src/strength.ts:79-113 | swept at a fixed period, a never-recalled item reaches the floor, and so the archive, exactly when a period takes more than 0.0005 from 0.011 |
| `Strength.DailySweepsNeverReachFloor` | packages/memory/src/strength.ts:17-21 | with the half-life of 30 days and a daily sweep a never-recalled item never falls below 0.011, so it is never archived |
| `Strength.StoredForgetsNearTheClock` | packages/memory/src/strength.ts:79-97 | the stored strength of a never-recalled item is within 0.0005 for each run of one run over the whole interval |
| `Strength.StoredForgetsNearTheSum` | packages/memory/src/strength.ts:79-97 | that of a recalled item is within 0.0005 for each run of the factor of the summed times since the access, or of the floor |
| `Strength.RoundingErrorIsBounded` | packages/memory/migrations/006_phase3_tables.sql:12 | the stored strength differs from the unrounded formula by at most 0.0005 for each run |
| `Strength.StrengthStaysInRange` | packages/memory/src/strength.ts:58-97 | any sequence of decay runs and recalls keeps the stored strength in [0.01, 1] |
| `Strength.ItemTable.ApplyDecay` | packages/memory/src/strength.ts:79-97 | exactly the agent's active items fade, each to its strength times the curve at the time since its last recall, or else its last write, not below 0.01 and rounded half up to thousandths, their other columns but the time of update staying; the counts are its active items and those of them at 0.01 |
| `Strength.ItemTable.ArchiveWeakItems` | packages/memory/src/strength.ts:102-113 | exactly the agent's active items at or below the threshold are archived and counted, which at the default threshold are those at 0.01, and none is left |
| `Strength.ItemTable.RecordAccessBatch` | packages/memory/src/strength.ts:58-72 | exactly the listed items gain 0.15 up to 1 and one access, and are accessed and updated now |
| `CircuitBreaker.Attempt` | packages/core/src/ao/bridge.ts:68-198 | one HTTP attempt exactly if the first answer is a parsed 2xx, for a spawn a 4xx, for a batch any other code below 500; two otherwise; of the last answer a parsed 2xx is a success, a spawn's 4xx records nothing, and everything else is a failure |
| `CircuitBreaker.ClientErrorIsNotCounted` | packages/core/src/ao/bridge.ts:88-99 | a spawn answered 400 to 499 leaves every circuit, recorded outcome and callback as it was, whatever else is in flight |
| `CircuitBreaker.ThreeOutagesOpen` | packages/core/src/ao/bridge.ts:101-145 | from any state, three calls of a repository that each end in two server errors or network errors leave its circuit open for 60 seconds from the last |
| `CircuitBreaker.StepKeepsInv` | packages/core/src/ao/bridge.ts:245-281 | every check, success and failure, however calls overlap, keeps counter, window and callbacks in agreement |
| `CircuitBreaker.CounterAndWindowAgree` | packages/core/src/ao/bridge.ts:245-281 | in every run failures are at least three exactly when openUntil is positive, the counter is the failures since the last success or expiry, and each closed callback follows an open one and is caused by a call begun before it |
| `CircuitBreaker.OpeningsAreAccounted` | packages/core/src/ao/bridge.ts:245-281 | in every run a repository's open callbacks are its closed callbacks, plus the windows that ran out without one, plus one if its window is armed |
| `CircuitBreaker.RecoveryGoesUnannounced` | packages/core/src/ao/bridge.ts:252-256 | three failures announce an opening; asked a minute later the circuit is closed and no closing was announced |
| `CircuitBreaker.RefusedIff` | packages/core/src/ao/bridge.ts:245-257 | a call is refused exactly when three failures or more were recorded since the last success or expiry and the last of them is less than a minute old |
| `CircuitBreaker.TrippedRefusesForAMinute` | packages/core/src/ao/bridge.ts:245-281 | once a repository has tripped no call begun within a minute of its last recorded failure is admitted, unless an earlier call succeeds first |
| `CircuitBreaker.OthersUnaffected` | packages/core/src/ao/bridge.ts:238-281 | a step of one repository leaves every other repository's circuit, counter and callbacks alone |
| `CircuitBreaker.AoBridge.IsCircuitOpen` | packages/core/src/ao/bridge.ts:245-257 | open exactly with three failures or more and the window running; an expired window is reset to zero, any other circuit and the callbacks stay; no repository is never refused |
| `CircuitBreaker.AoBridge.BeginCall` | packages/core/src/ao/bridge.ts:69-72 | admitted exactly unless the circuit has three failures and a running window; a refused call leaves the circuits as they are and nothing in flight |
| `CircuitBreaker.AoBridge.FinishCall` | packages/core/src/ao/bridge.ts:76-198 | a spawn's 4xx records nothing, a parsed 2xx a success, a batch's 3xx or 4xx and two server or network errors a failure; the call in flight records that one verdict, and the callbacks fired are those of the recorded openings and closings |
| `CircuitBreaker.AoBridge.NoteFailure` | packages/core/src/ao/bridge.ts:259-270 | one failure more; from the third on the window ends 60 seconds from now, and an opening is announced exactly if none was armed |
| `CircuitBreaker.AoBridge.NoteSuccess` | packages/core/src/ao/bridge.ts:272-281 | counter and window go to zero, and a closing is announced exactly if the circuit had three failures and an armed window |
| `DirectiveQueue.EveryPushIsPoppedOnceInOrder` | packages/core/src/ao/queue.ts:53-127 | under every interleaving the pops in order and then the list are the pushes in order, and each drain returns exactly its own pops in that order |
| `DirectiveQueue.DepthNeverExceeds` | packages/core/src/ao/queue.ts:53-73 | with at most k enqueues between check and push the list never exceeds 49 + k |
| `DirectiveQueue.DepthBoundIsReached` | packages/core/src/ao/queue.ts:53-73 | for every k >= 1 a run reaches 49 + k |
| `DirectiveQueue.DepthLimitHoldsIffSerial` | packages/core/src/ao/queue.ts:53-73 | the depth of 50 holds in every run exactly when no two enqueues overlap |
| `DirectiveQueue.UndisturbedDrainTakesAll` | packages/core/src/ao/queue.ts:97-127 | a drain nobody interrupts returns the whole queue, oldest first, and empties it |
| `DirectiveQueue.Queue.Enqueue` | packages/core/src/ao/queue.ts:53-89 | appended exactly when the depth is below 50 |
| `DirectiveQueue.Queue.DrainAll` | packages/core/src/ao/queue.ts:97-127 | a serial drain returns the old list and leaves none |
| `Approvals.EveryInterleavingIsSafe` | packages/core/src/approvals/approval-manager.ts:230-334 | however reads, writes and publications interleave, a human-only request that is approved or rejected was decided under a name whose lower case is none of the fourteen agent ids; none returns to pending, and a request is approved or rejected exactly when decidedBy is set |
| `Approvals.DecisionAdmittedIff` | packages/core/src/approvals/approval-manager.ts:236-250 | a decision gets past the checks exactly when the request is pending and is not both human-only and decided under a name whose lower case is one of the fourteen ids |
| `Approvals.CapitalisedAgentIsRefused` | packages/core/src/approvals/approval-manager.ts:58-60 | a human-only request decided by Strategist with a capital letter stays pending, undecided and unannounced |
| `Approvals.AnnouncedOnceIffHeldAlone` | packages/core/src/approvals/approval-manager.ts:230-334 | once nobody holds a request, it has had exactly the one terminal event of its final status, or none while pending, if and only if no two operations ever held it at once, however many overlapped on others |
| `Approvals.LoadNeverShrinks` | packages/core/src/approvals/approval-manager.ts:262-330 | a request's events and the operations holding it together never become fewer, so no hold is dropped without its event |
| `Approvals.SerialRunsAnnounceOnce` | packages/core/src/approvals/approval-manager.ts:230-334 | in a run without overlap each request has had exactly one terminal event, matching its final status |
| `Approvals.RaceAnnouncesTwice` | packages/core/src/approvals/approval-manager.ts:236-275 | two overlapping decisions on one request both publish |
| `Approvals.AnnouncedOnceIffSerial` | packages/core/src/approvals/approval-manager.ts:230-334 | one matching terminal event for each request is guaranteed exactly when operations do not overlap |
| `Approvals.ApprovalManager.CreateRequest` | packages/core/src/approvals/approval-manager.ts:159-225 | a new request is pending, undecided, and expires 86400000 milliseconds later; no other request and no event changes |
| `Approvals.ApprovalManager.Decide` | packages/core/src/approvals/approval-manager.ts:230-296 | an error exactly for a missing or settled request, or a human-only one with a name whose lower case is one of the fourteen agent ids; otherwise the document and one event |
| `Approvals.ApprovalManager.ExpirePending` | packages/core/src/approvals/approval-manager.ts:301-334 | exactly the pending requests with expiresAt not after now expire, nothing else about any request changes, and the new events are one expiry for each of them |
| `ToolLoop.CompleteBlockKeepsWellFormed` | packages/core/src/agent/executor.ts:490-519 | a well-formed transcript stays so when an answer and each of its calls' own result, in order, are added |
| `ToolLoop.LoopIsBounded` | packages/core/src/agent/executor.ts:412-414 | an execution ends by round 25, and an interruption has made progress |
| `ToolLoop.ExecutionEndsAt` | packages/core/src/agent/executor.ts:412-640 | if the rounds before k all call tools that do not throw, with no signal, an execution that aborts at k has failed after the calls before k; at a failed model call or throwing tool of round k it has failed, at a final answer it is completed and its checkpoint deleted, at a signal it is interrupted with round k saved; and at round 25 it is completed |
| `ToolLoop.SomeRoundEnds` | packages/core/src/agent/executor.ts:412-581 | every execution has such a round k, so its ending, calls, checkpoint and flag are always determined |
| `ToolLoop.CallsAreAccounted` | packages/core/src/agent/executor.ts:236-558 | over any executions the model calls made are at least the rounds in the checkpoint and exceed them by at most 25 for each checkpoint that could not be resumed from and each execution whose rounds were not saved |
| `ToolLoop.GuaranteedIff` | packages/core/src/agent/executor.ts:236-558 | for given saves and lookups, at most 25 calls are guaranteed whatever model and tools do, all executions but the last being interrupted, exactly when the first 25 interruptions are saved and the execution after each can resume from its checkpoint |
| `ToolLoop.AtMost25CallsAcrossResumes` | packages/core/src/agent/executor.ts:236-558 | a task interrupted and resumed any number of times, with every checkpoint saved and read, makes at most 25 model calls, however its last execution ends |
| `ToolLoop.UnsavedInterruptionStartsOver` | packages/core/src/agent/executor.ts:534-558 | without a saved checkpoint two executions make fifty calls |
| `ToolLoop.AgentExecutor.Execute` | packages/core/src/agent/executor.ts:236-558 | from the inputs: the ending, the number of transcripts sent, the checkpoint and the shutdown flag are those of the first round that does not just call its tools, as for ExecutionEndsAt; every transcript sent is well formed |
| `ToolLoop.AgentExecutor.RunRounds` | packages/core/src/agent/executor.ts:412-581 | the loop ends as specified, having sent one well-formed transcript a round, the first being the initial one and each later one the one before with its round's answer, content included, and for each call its own id and its own result |
| `ToolLoop.AgentExecutor.PushBlock` | packages/core/src/agent/executor.ts:490-519 | the answer's content and calls, then for each call a message with its id and its own result, or one of them throws |
| `Categories.ArchivesAreTheHistory` | packages/memory/src/categories.ts:58-98 | for every category and every sequence of updates the archived contents by version and then the current content are the contents ever held, one archive for each past version |
| `Categories.HitUpdate` | packages/memory/src/categories.ts:65-98 | a matching, mutable category gets the new content and the next version, after its old content and version were archived |
| `Categories.ImmutableNeverChanges` | packages/memory/src/categories.ts:72-80 | an immutable category keeps its row and is never archived |
| `Categories.CategoryTable.UpdateSummary` | packages/memory/src/categories.ts:58-98 | not found exactly if no category has the key and is the organisation's, the department's or the agent's; refused only for an immutable one; otherwise such a mutable one gets the new content and the next version and its old content and version are archived; nothing else changes |
| `EnvFile.EveryPrintedKeyComesBack` | packages/cli/src/generators/env-file.ts:87-107 | every printed key is bound again when the file is loaded into an empty environment, whatever the values hold |
| `EnvFile.QuotedComesBackIff` | packages/cli/src/utils/load-env.ts:37-48 | a quoted value is read back as itself exactly when it has no double quote, no backslash and no two spaces before a '#' |
| `EnvFile.QuotedLineLoads` | packages/cli/src/utils/load-env.ts:21-42 | with any white space around line and key, a value in double or in single quotes and without two spaces before a '#' binds its key to what stands between the quotes |
| `EnvFile.PlainLineLoads` | packages/cli/src/utils/load-env.ts:21-42 | any other value without such a comment binds its key to itself without the white space around it |
| `EnvFile.CommentedLineLoads` | packages/cli/src/utils/load-env.ts:34-47 | two spaces, a '#' and a note after the value are cut, and quotes around the value then stay part of it |
| `EnvFile.OtherLinesBindNothing` | packages/cli/src/utils/load-env.ts:22-28 | an empty line, a comment and a line without '=' bind nothing |
| `EnvFile.EscapeIsPerCharacter` | packages/cli/src/generators/env-file.ts:100-103 | escaping puts a backslash before every double quote and backslash and changes no other character |
| `EnvFile.ValueSurvivesIff` | packages/cli/src/generators/env-file.ts:87-107 | a value comes back exactly when the lines printed before it do not bind its key and it has no double quote, backslash, newline or two spaces before a '#', or when the first of them that binds the key binds it to that value |
| `EnvFile.ValueSurvivesAfterOneLinersIff` | packages/cli/src/generators/env-file.ts:87-107 | so, after values without newlines, it comes back exactly when it has none of those four |
| `EnvFile.FileRoundTripsIff` | packages/cli/src/generators/env-file.ts:87-110 | the loaded environment is exactly the printed part of the original one if and only if every printed value is such |
| `EnvFile.NewlineOverridesALaterKey` | packages/cli/src/generators/env-file.ts:100-103 | a newline in one value can bind another key, so that a value printed later is lost although it would survive on its own |
| `EnvFile.GenerateEnvFile` | packages/cli/src/generators/env-file.ts:8-110 | the text is the header, naming generator and date, and then each group with a present key, in the order of the table, a line for each key and a comment before each empty one |
| `EnvFile.PushGroup` | packages/cli/src/generators/env-file.ts:87-107 | a group without a present key prints nothing; any other its title as a comment first, its keys' lines and an empty line last |
| `EnvFile.PushKey` | packages/cli/src/generators/env-file.ts:94-105 | an empty value prints a comment and the bare key; a value with white space or one of seven special characters is printed escaped in double quotes, one of other printable ASCII as it is |
| `EnvFile.ProcessEnv.LoadProjectEnv` | packages/cli/src/utils/load-env.ts:15-54 | no file changes nothing; a file binds what its lines say, first line first, and no variable that is set is overridden |
| `TaskRegistry.MergedWriteReadsBackIff` | packages/core/src/actions/task.ts:415-464 | the same on typed fields: writing a record over an older one reads back as that record exactly when no optional field was cleared |
| `TaskWire.RecordSurvivesRedis` | packages/core/src/actions/task.ts:420-432 | a record written as strings with String() and read back with parseInt is the record |
| `TaskWire.NamesMean` | packages/core/src/actions/task.ts:415-464 | each name read from a hash means its status, priority or review, and any other text the default |
| `TaskWire.MergedStringsReadBackIff` | packages/core/src/actions/task.ts:415-464 | written over an older record's strings, it reads back as itself exactly when no optional field was cleared |
| `TaskRegistry.UpdatedIsStorable` | packages/core/src/actions/task.ts:314-324 | an update clears no optional field, moves no record to another agent and leaves no finished one without completedAt, and may be stored even if the hash ran out since it was loaded |
| `TaskRegistry.LastAskedIsLoaded` | packages/core/src/actions/task.ts:314-332 | after any sequence of updates of a stored task, each within 72 hours of the one before, the loaded status, pull request and review are the last ones asked for, or those it was stored with |
| `TaskRegistry.StoreKeepsAgreement` | packages/core/src/actions/task.ts:415-448 | a store is read back, touches no other task, and keeps every live task listed in its agent's set with score createdAt and a deadline no later than the set's, no set listing another agent's live task, and every finished task dated |
| `TaskRegistry.StoreRenews` | packages/core/src/actions/task.ts:415-448 | task and set have 259200000 milliseconds from the store on, and the set lists the task with createdAt |
| `TaskRegistry.TimePasses` | packages/core/src/actions/task.ts:433-438 | expiry of hashes and sets keeps that agreement |
| `TaskRegistry.SpreadStoreAgreesIff` | packages/core/src/actions/task.ts:420-438 | with any time between the four commands the record is there at the end unless its hash ran out, and index and tasks agree exactly when it did or the agent's set did not run out between ZADD and EXPIRE |
| `TaskRegistry.TimedStoresAgreeIff` | packages/core/src/actions/task.ts:415-448 | over any run of such stores, index and tasks agree after every one of them exactly when no set runs out under a store |
| `TaskRegistry.SetLapsesUnderAStore` | packages/core/src/actions/task.ts:437-438 | two stores for one agent, the second's commands in the set's last millisecond, leave a live task that no set lists |
| `TaskRegistry.AgentReadIsScan` | packages/core/src/actions/task.ts:466-500 | reading through the index finds exactly the agent's live tasks, each once, newest first |
| `TaskRegistry.CleanupIsInvisible` | packages/core/src/actions/task.ts:484-498 | lazy cleanup changes no task and no other set, and leaves the set listing exactly the agent's live tasks |
| `TaskRegistry.AgentQueryMeans` | packages/core/src/actions/task.ts:357-371 | a query by agent answers the agent's live tasks, overdue ones as stuck, newest first, exactly those with the status asked for |
| `TaskRegistry.FallbackPicksNewest` | packages/core/src/actions/task.ts:515-525 | the fallback finds the agent's newest live unfinished task for the issue, else the newest finished one, else none exists |
| `TaskRegistry.FallbackPicksStuck` | packages/core/src/actions/task.ts:515-521 | of a task in progress and a newer one marked stuck, both for the issue, the stuck one is picked |
| `TaskRegistry.FullReadIsScan` | packages/core/src/actions/task.ts:527-550 | every live task is read exactly once, however often the scan repeats a key |
| `TaskRegistry.MarkedMeans` | packages/core/src/actions/task.ts:76-80 | a record is stuck exactly when in progress and last updated longer ago than the threshold of its kind, by the six code-generation task names; marking changes nothing but the status |
| `TaskRegistry.MarkingKeepsAgreement` | packages/core/src/actions/task.ts:390-395 | marking stuck tasks changes those tasks and no other, and keeps index and tasks in agreement |
| `TaskRegistry.SummaryLeavesNoneOverdue` | packages/core/src/actions/task.ts:386-411 | after a summary no live task is in progress beyond its threshold |
| `TaskRegistry.MarkedAreTheTasks` | packages/core/src/actions/task.ts:386-411 | the records a summary counts are exactly the live tasks afterwards |
| `TaskRegistry.CountsAddUp` | packages/core/src/actions/task.ts:397-409 | each count is the number of records with that agent and status, and the counts add up to the number of records |
| `TaskRegistry.SummaryCountsTasks` | packages/core/src/actions/task.ts:386-411 | what a summary counts for an agent and a status is the number of the agent's live tasks in that status after marking |
| `TaskRegistry.TaskExecutor.CreateTask` | packages/core/src/actions/task.ts:227-255 | refused exactly without agent or task; otherwise a pending record with the fields given, priority P2 by default, is stored and read back, and no other task changes |
| `TaskRegistry.TaskExecutor.UpdateTask` | packages/core/src/actions/task.ts:259-332 | the record found by id, or else the agent's newest unfinished or newest finished one for the issue, gets the status, pull request and review that are given, the time of update, and a completion time on a terminal status, keeps every other field, and is read back; without one a terminal update with an agent leaves a new record, any other an error; no other task changes |
| `TaskRegistry.TaskExecutor.LoadByAgent` | packages/core/src/actions/task.ts:466-505 | returns the records behind the set's ids and removes the ids without one, or the set with no record left |
| `TaskRegistry.TaskExecutor.QueryTask` | packages/core/src/actions/task.ts:336-382 | by id the task, by agent its live tasks with the status asked for, overdue ones marked and stored as stuck |
| `TaskRegistry.TaskExecutor.LoadAll` | packages/core/src/actions/task.ts:527-555 | the sets in scan order, ids met before skipped |
| `TaskRegistry.TaskExecutor.SummarizeTasks` | packages/core/src/actions/task.ts:386-411 | for every agent and status the number of live tasks after marking; they add up to totalTasks and nothing overdue is left in progress |

## Left out

- Connection, database and Redis errors, the fallback from Redis to memory in the task registry and the checkpoint store, row-level security.
- Foreign keys from commits to agents, `created_at` columns; the order in which a query returns its rows is an input.
- Git subprocesses and bundles: only the list handed to indexing and the first-parent map.
- A circuit callback that throws, the health probe of the bridge, its audit and metrics.
- Expiry of the directive list, and entries that do not parse when drained.
- Operations of the task registry that overlap each other; within one store the commands may be spread over time, every other operation happens at one instant.
- Task ids of the form `agent:...`, whose hash key would be mistaken for an index key; ids are generated, so they do not occur.
- Strength.ItemTable.ApplyDecay: the exponential function itself; any forgetting curve takes its place, and `calculateDecayedStrength`, which no update uses, is not modelled.
- Sentiment, the dedup and conflict logs, episodes, embeddings and the write gate's model.
- Rewriting a summary with a model before it is stored.
- `requiresApproval`, audit entries and Slack messages of approvals; a crash between a write and its event.
- Context compression (which may rewrite a transcript between rounds), costs, cache metrics, objectives and several executions sharing one executor.
- EnvFile.GenerateEnvFile: the shipped table of keys is an input, any table of that kind will do; the wizard that fills the environment is not modelled.
- MemoryStore.MemoryManager.StoreFact: facts are stored one after the other and no statement fails in between.
- TaskWire.RecordSurvivesRedis: numbers are integers, as timestamps and issue numbers are; `NaN` from a hash nobody stored is not modelled, nor is white space before a number.
