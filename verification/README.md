# Board Games Empire: six protocols, modelled and proved

This project models the parts of the repository in which something can go wrong that no single
function shows, and proves what they are for. There are six.

**The lock file, and the two generators behind it.** `FileLock` is the protocol of
`prisma-generate/lock.js` as a transition system: names map to inodes and inodes to contents, every
system call is one step, a process may be killed or give up with an I/O error between any two, and the
clock never goes back. `LockIntegrity` proves that a lock file is always whole and never changes under
its inode. `LockBlame` proves that two processes hold the lock at once only after one of three named
events, and `LockWindows`, with the stretches of runs in `LockLegs`, that each of the two windows that
lock.js leaves open is there exactly in the configurations in which anybody waits. `LockCalls` is the
code itself, call by call, in the source's own form; every method is proved to take exactly the steps
of the transition system while other processes interfere, and to give up for no other reason than the
code's. `LockWaiter` proves that every wait ends, and that a waiter outlives a stuck holder and takes
its lock; `LockReclaim` on what evidence a lock is taken from its holder or removed, and that a dead holder's is taken.

On top of the lock, `GenerateOnce` proves what concurrent runs of `main` and the stamp give, and
`GenerateCalls` is `main` in its own form, proved to take those steps. `ExportRuns` and `ExportCalls` do
the same for concurrent proto exports, whose files `ProtoExport` compares and moves. `GenerateLimits` and
`ExportLimits` write out the runs in which each falls short of what one might have hoped.

**The claim analyser and the lock order.** `ClaimAnalysis` is the static analysis of
`shipped-function.ts` over a small statement language; `ClaimSemantics` runs that language under
every choice of branches, errors and iterations; `ClaimSoundness` proves the analysis right about
every execution, and `ClaimDelegates` the fixpoint of delegates and the audit as a whole.
How code can end without a claim is read off its syntax in `ClaimOutcomes`, and shown to happen in
`ClaimWitnesses`, by executions that are put together (`ClaimReplay`); from that, `ClaimSure` tells the
functions that are sure to take a claim, and `ClaimExactness` decides for every file, scope and write
whether the write is guarded, and says where the analysis decides the same. `ClaimReading` says, without
the analysis, exactly what it credits. `ClaimLimits` has the two ways in which it credits a claim that
nothing takes. `LockOrder` is the order
it protects and how paths are judged against it. `Deadlock` is a lock manager with queues, and proves
that scripts in order never deadlock, and that a script out of order always can. `LockPaths` proves what
the pins and the audit of `lock-order.ts` ensure of a path, and exactly which paths can deadlock.

**The rate limiter.** `Throttle` proves the Lua script over two keys indistinguishable from one
fixed-window counter. `FailOpen` proves the bookkeeping of failures, and that a request is counted at
most once.

**The Host rule.** `HostRule` proves the wildcard matcher equal to the glob relation, in bounded time,
and the whole rule to what it says.

**Image tags.** `ImageRules` has the decisions, `PublishImages` the publish run: one at a time, while
tags are removed by hand and master moves on, and any call may be its last.

**Templates and queues.** `Template` proves the round trip of lifting a template out of source text and
binding values into it, and exactly when it works. `DrainQueue` proves that a normal return of
`drainQueue` means what it says.

`Prelude` holds what the modules share, and `Traces` what runs that are written out have in common.

## Where the code and its documentation disagree

The code is modelled as it is; each of these is a theorem.

- A claim inside a *function declaration* that stands as a statement is credited to the code after it,
  though it runs nothing: `maskedNodeText` skips the node it is given
  (apps/api-e2e/src/support/shipped-function.ts:1180). `ClaimLimits.ADeclarationIsCredited` has the
  shortest such scope, `ClaimLimits.VerdictIsRightExactly` says when a verdict can be relied on.
- A function whose `finally` returns is credited as a delegate, though an error in its claim ends in
  that return. `ClaimLimits.ReturningFinallyIsCredited`.
- The pins judge a path by where it first takes each stage. So they let a share claim of the plugin row
  pass that a later write has to upgrade, and two runs of such a path deadlock:
  `LockPaths.PinsMissAnUpgrade`. The paths of activation and of the config PATCH are not of that kind
  (`LockPaths.RewritesAreSafe`); `LockPaths.PathIsExact` says which are.
- A generate is lost, and made again, if its process dies between its end and its stamp, so "at most
  one generate" holds up to those: `GenerateOnce.GeneratesOnce` counts them, and
  `GenerateLimits.ALostGenerateIsMadeAgain` is such a run.
- A `main` that is killed leaves its generator running (libs/scripts/src/prisma-generate/index.js:37-49),
  and a run that returned 0 since may find its tree written over. `GenerateLimits.AnOrphanOutlivesAReturn`;
  `GenerateOnce.FinalityIsExact`.
- `matchesWildcard` is wrong for every text that holds a `*`, and right for all others. Its callers
  keep such texts out. `HostRule.MatcherIsExactOffStars`.
- `edgeDecision` warns that no commit will move an `edge` that has diverged. Each later commit does that
  descends from the revision it names. `ImageRules.AWarnedEdgeMovesExactly`, and a merge that does,
  `ImageRules.AMergeMovesAWarnedEdge`.
- `bindTemplate` advises to escape a literal `$` that has a digit after it. That does not help.
  `Template.EscapingDoesNotHelp`.

## Assumptions

- A pid is never used again. Two records with the same pid and millisecond are one of the three events
  that can be to blame, `RepeatsRecord`.
- Function names are unique in a file, a leaf that mentions a claim evaluates it, and case labels are
  literals. A claim that throws has not been taken.
- All concurrent runs of `main` see one schema, so one fingerprint, and no stamp carries it at the start.
  All concurrent exports see the same sources, and so export the same files.
- A path of `lock-order.ts` takes one row of each stage. Locks are kept to the end of the transaction.
- A Redis key has expired in the millisecond of its deadline. `ttl` and `blockDuration` are positive.
  Requests reach Redis in the order of its clock, each after the one before it has written its marker.
- The registry's `imagetools create` puts a tag on the very index it is given, and an index stands for
  the same images for good. Only the publish job writes tags; people only remove them.
- A queue's event stream is only appended to, with increasing ids, from the mark on.

## Model

| member | source | states |
|---|---|---|
| LockIntegrity.StepIntact | libs/scripts/src/prisma-generate/lock.js:197-274 | every step of every process, crashes included, keeps the whole invariant: the lock's inode is complete and published, staging inodes are private to their owner until linked, and no reader holds on to anything else |
| LockIntegrity.LockIsWholeAndFrozen | libs/scripts/src/prisma-generate/lock.js:8-14 | in every reachable state an existing lock file holds the complete record of a link, and at every later state its inode is the same, even while a leaked staging name still links to it |
| LockIntegrity.LinkPublishesOwnRecord | libs/scripts/src/prisma-generate/lock.js:223-238 | a link that took the lock found none there, put its own pid's record there, and that inode never changes afterwards |
| LockBlame.StepExclusive | libs/scripts/src/prisma-generate/lock.js:223-317 | a step that is not to blame keeps: every holder's record is the lock's content, and no reclaimer has condemned a holder's record |
| LockBlame.TwoHoldersMeanBlame | libs/scripts/src/prisma-generate/lock.js:223-317 | two processes hold the lock at once only after a live holder was judged stale between its link and the end of its release, or a rename moved aside another record than the confirming read saw, or a record was published twice |
| LockBlame.HolderIsNamed | libs/scripts/src/prisma-generate/lock.js:235-238 | without those events, while a process holds the lock the file carries that process's record |
| LockBlame.JudgedHolderHasOverrun | libs/scripts/src/prisma-generate/lock.js:198-243 | a live holder is judged stale only when more than staleMs have passed since it staged its record, which is before it linked it |
| LockWindows.TheRenameWindowIsReal | libs/scripts/src/prisma-generate/lock.js:23-26 | for every configuration that lets a waiter wait (timeoutMs not negative) there is a run with two live holders in which only a rename after a takeover is to blame |
| LockWindows.TheOverrunWindowIsReal | libs/scripts/src/prisma-generate/lock.js:240-244 | for every such configuration there is a run with two live holders in which only an overrun of staleMs is to blame |
| LockWindows.NoWindowWithoutWaiting | libs/scripts/src/prisma-generate/lock.js:279-293 | in every other configuration each waiter gives up at once, so there are no such windows: two holders mean a record published twice |
| LockCalls.World.Interfere | libs/scripts/src/prisma-generate/lock.js:23-31 | between two system calls of a process any steps of the others happen; the run so far stays a run of the transition system |
| LockCalls.Lock.Stage | libs/scripts/src/prisma-generate/lock.js:197-221 | staging takes exactly the protocol's steps and ends with an own record ready to link; it gives up only after five steps of its own that each found the name taken |
| LockCalls.Lock.TryAcquire | libs/scripts/src/prisma-generate/lock.js:223-238 | it ends holding its own record; or waiting with its deadline unchanged, only if a link of its own found a lock in the way; or with nothing held and an error, only if five staging names in turn were taken or its staging file had gone |
| LockCalls.Lock.Observe | libs/scripts/src/prisma-generate/lock.js:148-174 | the first read of freeIfStale is an open and a read of that inode, with interference between |
| LockCalls.Lock.IsStale | libs/scripts/src/prisma-generate/lock.js:240-244 | the judgement, with the liveness probe and the clock read at different moments, is the protocol's |
| LockCalls.Lock.Confirm | libs/scripts/src/prisma-generate/lock.js:257-258 | the rename goes ahead only when the second read saw the same holder |
| LockCalls.Lock.Evict | libs/scripts/src/prisma-generate/lock.js:260-274 | the lock is moved aside and discarded, or somebody else was first |
| LockCalls.Lock.FreeIfStale | libs/scripts/src/prisma-generate/lock.js:253-274 | freeing a lock does not grant it: it ends about to try again, or to sleep |
| LockCalls.Lock.Poll | libs/scripts/src/prisma-generate/lock.js:279-293 | a turn of the wait gives up only where the clock it read was past the deadline, and otherwise goes back to try |
| LockCalls.Lock.Acquire | libs/scripts/src/prisma-generate/lock.js:276-294 | if it returns and nothing was to blame so far, the lock carries this process's record and no other process holds it; it goes on for as long as each of its links found a lock in the way, once a turn; it times out only after such a turn and more than timeoutMs, at a clock read past the deadline, and fails only after five taken staging names or a vanished staging file |
| LockCalls.Lock.StillNames | libs/scripts/src/prisma-generate/lock.js:311-312 | release goes on to remove the lock only when the read saw its own record, and without blame it always does |
| LockCalls.Lock.Release | libs/scripts/src/prisma-generate/lock.js:296-317 | nothing held is nothing removed; without blame a held lock is removed, and what was removed was its own |
| LockWaiter.AcquireEnds | libs/scripts/src/prisma-generate/lock.js:276-294 | past its deadline a live acquire ends, by taking the lock or by throwing, within eighteen of its own steps, whatever the others do |
| LockWaiter.WaiterOutlivesStuckHolder | libs/scripts/src/prisma-generate/lock.js:85-92 | a lone waiter on a lock that is never released, whose judgements are at most d apart with staleMs + d < timeoutMs, never gives up |
| LockWaiter.WaiterStopsWaiting | libs/scripts/src/prisma-generate/lock.js:240-274 | once staleMs + d has passed, that waiter has freed the lock or is past the point where it can be refused it |
| LockWaiter.WaiterTakesTheLock | libs/scripts/src/prisma-generate/lock.js:276-294 | from there it takes the lock within nine of its own steps |
| LockWaiter.WaiterGetsTheLock | libs/scripts/src/prisma-generate/lock.js:85-92 | the three together, for each configuration that assertReclaimIsReachable lets pass: from finding the stuck holder's lock, the waiter has freed it within three of its own steps once staleMs + d have passed, and holds it within nine |
| LockReclaim.ReclaimIsJustified | libs/scripts/src/prisma-generate/lock.js:240-274 | over every run, a process renames the lock only after it read a holder, asked whether that holder lives, found it dead or older than staleMs (or unreadable, and the file older than graceMs), and then read the same holder again |
| LockReclaim.RemovalIsGuarded | libs/scripts/src/prisma-generate/lock.js:296-317 | over every run, a release removes the lock only after it opened the lock, still holding it, and read its own record in that inode |
| LockReclaim.DeadHoldersLockIsTaken | libs/scripts/src/prisma-generate/lock.js:253-294 | a lone waiter takes a dead holder's lock within nineteen of its own steps, if they end before its deadline, however recent the lock is |
| GenerateOnce.StepInv | libs/scripts/src/prisma-generate/index.js:59-97 | every step of every concurrent main, crashes and thrown errors included, keeps the invariant as long as the lock is not to blame and no killed run's generator writes |
| GenerateOnce.GeneratesOnce | libs/scripts/src/prisma-generate/index.js:59-97 | the generates that ran to their end are exactly those stamped, those lost before their stamp, and the one on its way to it; at most one stamp is written, exactly when it is current, and that means a complete tree of the recorded count |
| GenerateOnce.CurrentIsFinal | libs/scripts/src/prisma-generate/client-state.js:96-130 | once isCurrent would answer true, no later step changes the tree or the stamp |
| GenerateOnce.ReturnedZeroIsFinal | libs/scripts/src/prisma-generate/index.js:63-97 | a main that returned 0 leaves a complete, stamped tree that no later step touches, as long as no killed run's generator writes |
| GenerateOnce.FinalityIsExact | libs/scripts/src/prisma-generate/index.js:37-48 | the tree of a main that returned 0 stays as it is however the runs go on, if and only if no killed run has left its generator behind |
| GenerateLimits.ALostGenerateIsMadeAgain | libs/scripts/src/prisma-generate/index.js:63-97 | a run, with nothing to blame, in which a generate ends, its process dies before the stamp, and a second one ends |
| GenerateLimits.AnOrphanOutlivesAReturn | libs/scripts/src/prisma-generate/index.js:37-48 | a run in which a main returns 0 over a complete tree while a killed main's generator is still there, and a continuation in which that changes the tree |
| GenerateCalls.Workspace.Interfere | libs/scripts/src/prisma-generate/index.js:5-21 | between two file operations of a run any steps of the other runs and of the clock happen, and leave this run where it stands |
| GenerateCalls.Workspace.IsCurrent | libs/scripts/src/prisma-generate/client-state.js:96-112 | reading the stamp and looking at the tree are two steps with others' between them; the answer is what they found, and it goes on to exactly where the protocol says for it |
| GenerateCalls.Workspace.ClearStamp | libs/scripts/src/prisma-generate/client-state.js:124-126 | the stamp is gone before the tree is touched |
| GenerateCalls.Workspace.WriteStamp | libs/scripts/src/prisma-generate/client-state.js:128-130 | the stamp passes through a torn state and then carries the fingerprint |
| GenerateCalls.Workspace.Acquire | libs/scripts/src/prisma-generate/index.js:68 | it goes on to the rebuild only with the lock held; it errs only where a call inside it throws or the lock's own acquire gives up, and is still waiting only after as many steps inside the lock as it is followed for |
| GenerateCalls.Workspace.Rebuild | libs/scripts/src/prisma-generate/index.js:70-93 | the try block takes the protocol's steps in the protocol's order and leaves with the status it returns: 0 where the client was current, and otherwise what the generator exited with, unless an operation throws; 0 then means that none threw |
| GenerateCalls.Workspace.Release | libs/scripts/src/prisma-generate/index.js:94-96 | whatever the try block did, the lock is released within three steps, and main ends with that status |
| GenerateCalls.Workspace.Generate | libs/scripts/src/prisma-generate/index.js:59-97 | a main that returns 0, the lock not being to blame, leaves a complete tree whose current stamp has its file count; it fails only where a call in the lock throws, the lock gives up, the generator fails, or an operation throws, and with the generator's status in the third case |
| ProtoExport.SameFiles | libs/scripts/src/proto-export/export.js:59-68 | true exactly when both directories are there and hold the same files with the same contents |
| ProtoExport.Output.MoveIntoPlace | libs/scripts/src/proto-export/export.js:71-86 | against any intrusions of somebody without the lock: it answers that the files are there exactly at the first attempt that finds them, and that it wrote them at the first whose rename meets no files, all attempts before having met somebody else's; after either they are in place; and it gives up only after three collisions |
| ExportRuns.StepInv | libs/scripts/src/proto-export/export.js:71-111 | every step of every concurrent export, crashes, thrown errors and half-done deletions included, keeps the invariant as long as the lock is not to blame |
| ExportRuns.IdenticalExportsReplaceOnce | libs/scripts/src/proto-export/export.js:8-22 | over every run of any number of concurrent exports of the same files, wherever they crash or throw, the lock not being to blame: the output is replaced at most once, not at all if it held those files from the start, and no rename meets a directory |
| ExportRuns.OutputIsFinal | libs/scripts/src/proto-export/export.js:8-22 | once the output was replaced or an export has returned, it holds the files, and no later step of any run touches it |
| ExportRuns.HeldIsFinalExactly | libs/scripts/src/proto-export/export.js:71-86 | an output that holds the files keeps them however the runs go on, if and only if no live run is in the middle of deleting it |
| ExportLimits.AnOverrunReplacesTwice | libs/scripts/src/proto-export/export.js:78-81 | the lock may not be to blame: for every configuration that lets a waiter wait there is a run of two exports that replaces the output twice, with only an overrun of staleMs to blame |
| ExportCalls.Workspace.Interfere | libs/scripts/src/proto-export/export.js:13-22 | between two file operations of a run any steps of the other runs and of the clock happen, and leave this run where it stands |
| ExportCalls.Workspace.Compare | libs/scripts/src/proto-export/export.js:59-73 | the comparison, after whatever the others did, goes on to exactly where the protocol says for its answer |
| ExportCalls.Workspace.Delete | libs/scripts/src/proto-export/export.js:75 | the deletion goes file by file, with others' steps between, and then the output is gone |
| ExportCalls.Workspace.Rename | libs/scripts/src/proto-export/export.js:76-84 | a rename onto a directory that holds files fails, and the third failure throws; any other puts the files in place |
| ExportCalls.Workspace.MoveIntoPlace | libs/scripts/src/proto-export/export.js:71-86 | the loop of three attempts takes the protocol's steps, and returns only with the output holding the files; it errs only where an operation throws or the third rename collides |
| ExportCalls.Workspace.Acquire | libs/scripts/src/proto-export/export.js:102 | it goes on to the comparison only with the lock held; it errs only where a call inside it throws or the lock's own acquire gives up, which ends the export |
| ExportCalls.Workspace.Release | libs/scripts/src/proto-export/export.js:105-107 | whatever the move did, the lock is released within three steps and the export ends with that result |
| ExportCalls.Workspace.ExportProtos | libs/scripts/src/proto-export/export.js:95-111 | an export that returns, the lock not being to blame, leaves the output with its files; a failed one ends without the lock, and one that succeeded errs only where the lock gives up, a call throws, or the third rename collides |
| ClaimAnalysis.DominatedSomewhere | apps/api-e2e/src/support/shipped-function.ts:1018-1035 | a write is dominated exactly when at some ancestor a statement ahead of it in the same list claims on every path |
| ClaimAnalysis.DominatedByClaim | apps/api-e2e/src/support/shipped-function.ts:1009-1038 | the upward walk from the write answers exactly that |
| ClaimSoundness.ClaimsTaken | apps/api-e2e/src/support/shipped-function.ts:1062-1112 | code that claims on every path has taken a claim whenever it completes normally, and whenever it leaves without an error unless a finally leaves early |
| ClaimSoundness.StaysIn | apps/api-e2e/src/support/shipped-function.ts:1127-1147 | code that cannot leave early completes normally or throws |
| ClaimSoundness.DominatedIsGuarded | apps/api-e2e/src/support/shipped-function.ts:1009-1147 | if the write is dominated once the texts of declared functions are blanked, no execution of the scope, under any branches, errors and iterations, reaches it without a claim taken before |
| ClaimDelegates.PassesWiden | apps/api-e2e/src/support/shipped-function.ts:635-649 | each pass's delegates contain the previous pass's |
| ClaimDelegates.SettledIsLeastFixpoint | apps/api-e2e/src/support/shipped-function.ts:631-649 | a pass that adds nothing has the least set of names closed under claiming on every path |
| ClaimDelegates.ClaimsIncludingDelegates | apps/api-e2e/src/support/shipped-function.ts:631-657 | comparing sizes is enough: what is returned is that least fixpoint, and it throws exactly when sixteen passes did not settle |
| ClaimDelegates.LeastFixpointExists | apps/api-e2e/src/support/shipped-function.ts:631-657 | every file has such a least set, found by sixteen passes or not |
| ClaimDelegates.DelegatesAreSound | apps/api-e2e/src/support/shipped-function.ts:601-655 | in any file, every delegate found without counting declared functions, or functions whose finally leaves early, has taken a claim in each of its executions that completes |
| ClaimDelegates.TrustedDominanceGuards | apps/api-e2e/src/support/shipped-function.ts:534-575 | a verdict "claimed" that is reached with those delegates and blanked declarations is right of every execution, and the audit reaches it too |
| ClaimDelegates.Audit | apps/api-e2e/src/support/shipped-function.ts:534-575 | for any file and scope: the verdict is dominance with the least set of delegates; it says "claimed" wherever the trusted verdict does, and where both do, every execution of the scope reaches the write only after a claim; what dominance and the set of delegates take in is settled by `ClaimReading` |
| ClaimOutcomes.EndForeseen | apps/api-e2e/src/support/shipped-function.ts:1062-1147 | an execution that takes no claim ends in one of the outcomes read off the syntax, whatever its branches, errors, iterations and calls, the functions counted on being sound for shorter executions |
| ClaimWitnesses.CallsPass | apps/api-e2e/src/support/shipped-function.ts:601-655 | calls to functions that are not sure to take a claim have an execution that comes through without one |
| ClaimWitnesses.EndHappens | apps/api-e2e/src/support/shipped-function.ts:1062-1147 | and each of those outcomes happens: for each there are choices that lead any execution to it without a claim |
| ClaimSure.SureIsSound | apps/api-e2e/src/support/shipped-function.ts:601-657 | in any file, recursive or not, the functions that have taken a claim whenever they complete are exactly those that as many passes over the syntax as there are functions leave |
| ClaimExactness.UnreachedIsGuarded | apps/api-e2e/src/support/shipped-function.ts:1009-1147 | no execution comes without a claim to a write that the walk over the syntax does not reach |
| ClaimExactness.ReachesUnclaimed | apps/api-e2e/src/support/shipped-function.ts:1009-1147 | some execution comes without a claim to a write that the walk reaches, through blocks, arms, handlers, finally blocks, clauses, labels and loops |
| ClaimExactness.GuardedExactly | apps/api-e2e/src/support/shipped-function.ts:1009-1147 | for every file, scope and write: every execution takes a claim before the write, if and only if the walk over the syntax does not reach it |
| ClaimExactness.DominanceIsExact | apps/api-e2e/src/support/shipped-function.ts:1009-1147 | where each statement ahead of the write claims on every path or can be come through without a claim, guard clauses included, that is the same as dominance by a claim, with declarations blanked and the sure functions for delegates |
| ClaimLimits.VerdictIsRightExactly | apps/api-e2e/src/support/shipped-function.ts:534-575 | for every file, scope, write and set of delegates: a verdict is right if and only if it is "not claimed" or the walk does not reach the write |
| ClaimLimits.ADeclarationIsCredited | apps/api-e2e/src/support/shipped-function.ts:1175-1200 | a declared function ahead of a write is credited with the claim in its body, and an execution reaches the write without one |
| ClaimLimits.LeavesClaimedExactly | apps/api-e2e/src/support/shipped-function.ts:1091-1101 | whether each return, break or continue in a finally comes after a claim can be read off its syntax |
| ClaimLimits.ReturningFinallyIsCredited | apps/api-e2e/src/support/shipped-function.ts:1091-1101 | a function that claims in a try, and in its handler if it has one, is credited as a delegate whatever its finally and the code after it, and is one exactly when each return, break or continue in that finally comes after a claim |
| ClaimReading.LeavesExactly | apps/api-e2e/src/support/shipped-function.ts:1127-1147 | canLeaveEarly finds exactly the statements that hold a return, a break or a continue, at whatever depth |
| ClaimReading.CreditsExactly | apps/api-e2e/src/support/shipped-function.ts:1062-1112 | for every statement and set of known names: the check credits it if and only if, read the check's way (conditions, loops, switches, labels and finally blocks do nothing, control may leave after anything that holds a way out), it ends only by throwing until a claim is taken |
| ClaimReading.CreditsWhatClaims | apps/api-e2e/src/support/shipped-function.ts:1062-1112 | told the functions that do claim, the check credits exactly the statements whose every execution, read that way, takes a claim or throws |
| ClaimReading.PassFindsExactly | apps/api-e2e/src/support/shipped-function.ts:635-649 | a pass over a file finds exactly the functions that, read that way, end only by throwing until a claim is taken |
| ClaimReading.DominatedExactly | apps/api-e2e/src/support/shipped-function.ts:1009-1038 | a write is dominated if and only if some list on the way to it holds such a statement ahead of it |
| ClaimReading.SimpleIsExact | apps/api-e2e/src/support/shipped-function.ts:1062-1147 | over leaves, declarations, blocks, ifs and trys, with no way out, no throw, no claim in a condition and none that a finally must take: the check credits exactly what cannot complete without a claim |
| LockOrder.StagesNamedMeaning | apps/api-e2e/src/plugin/lock-order.ts:396-420 | it accepts exactly non-empty lists of distinct stage names, and returns those stages, each once, in the claimed order whatever order they were named in; it refuses an empty list, a repeated name, and otherwise the first name that is no stage |
| LockOrder.OrderMismatch | apps/api-e2e/src/support/shipped-function.ts:254-282 | no complaint exactly when every stage occurs and all first occurrences ascend, though only neighbours are compared; an inversion it names is the first |
| Deadlock.ReentrantNeverWaits | apps/api-e2e/src/plugin/lock-order.ts:268-274 | a lock on a row the transaction holds in a mode that covers it, as the foreign key's on a claimed plugin row, never waits for anyone |
| Deadlock.InOrderNeverDeadlocks | apps/api-e2e/src/plugin/lock-order.ts:21-29 | any number of transactions, over any instances of rows, whose requests are each covered or rank above all before, never reach a cycle of waits; nor do they beside one whose only other requests are upgrades |
| LockPaths.JudgePath | apps/api-e2e/src/support/shipped-function.ts:254-282 | pinning all the stages a path takes passes exactly when their first written occurrences ascend |
| LockPaths.PassingPathIsInOrder | apps/api-e2e/src/plugin/lock-order.ts:45-76 | a path that passes the pins and the audit and never upgrades a lock is in order, whatever it locks again and whatever its foreign keys lock |
| LockPaths.ClaimedWritesNeverDeadlock | apps/api-e2e/src/plugin/lock-order.ts:45-76 | any number of transactions on such paths never deadlock |
| LockPaths.PathIsExact | apps/api-e2e/src/plugin/lock-order.ts:62-76 | a path can deadlock, beside any number of runs of itself and of scripts in order, if and only if it takes an uncovered lock before one it holds, or two of its upgrades of one row can meet, neither barred and each barring the other |
| LockPaths.PassingPathIsExact | apps/api-e2e/src/plugin/lock-order.ts:62-76 | for a path that passes the pins and the audit the first of these can only be an upgrade too, so without upgrades there is no deadlock |
| LockPaths.PinsMissAnUpgrade | apps/api-e2e/src/plugin/lock-order.ts:112-117 | a share claim of the plugin row that a later write upgrades passes the pins and the audit, and deadlocks with another run of the same path |
| LockPaths.RewritesAreSafe | apps/api-e2e/src/plugin/lock-order.ts:112-117 | activation, which reads the plugin row FOR UPDATE and then writes it, and the config PATCH, which claims it in the mode of its write, pass and cannot deadlock |
| LockPaths.SomeUpgradesAreSafe | libs/plugin/runtime/src/lib/lifecycle/plugin-lifecycle.service.ts:130-168 | an upgrade from a mode that excludes itself cannot deadlock |
| Deadlock.SomethingGoesOn | apps/api-e2e/src/plugin/lock-order.ts:21-29 | as long as a transaction is live, one can be granted a lock or can commit |
| Deadlock.GoingBackCanDeadlock | apps/api-e2e/src/plugin/lock-order.ts:25-29 | a script that takes an uncovered lock of a stage before one it holds reaches a cycle with some script that is in order |
| Deadlock.OrderIsExact | apps/api-e2e/src/plugin/lock-order.ts:78-162 | for a script with one row of each stage, which it may lock any number of times: it never goes back in the order, upgrades aside, if and only if no script in order can come to a cycle with it |
| LockPaths.DecideNeedsItsClaim | apps/api-e2e/src/plugin/lock-order.ts:56-60 | decide() without its plugin-row claim fails the audit and can deadlock, and with the claim it passes and cannot |
| Throttle.Server.Increment | apps/api/src/app/lib/redis-throttler.storage.ts:78-121 | the script's commands on the two keys compute the specified store and the whole reply, with the clock moving on before the marker is written |
| Throttle.ScriptRefinesWindow | apps/api/src/app/lib/redis-throttler.storage.ts:85-118 | one request gets the whole answer that an ideal fixed-window counter gives, the count, its life, the refusal and the time left of the block, and the keys still stand for that counter, stale markers included |
| Throttle.RefusalTellsTheKeys | apps/api/src/app/lib/redis-throttler.storage.ts:85-118 | every refusal tells what the keys it leaves hold: the counter's value and life, and what is left of the marker, from now or from when it was written |
| Throttle.RefusedExactlyPastTheLimit | apps/api/src/app/lib/redis-throttler.storage.ts:78-121 | over every timed sequence of requests the n-th of a window is refused exactly when n > limit, whatever the block, also where a marker outlives its counter |
| Throttle.ToldWhatIsLeft | apps/api/src/app/lib/redis-throttler.storage.ts:85-118 | over every timed sequence: totalHits is what was counted, and the time to the end of the block is none within the limit, the capped block for the request that set it, and what is left of that for one it refuses later |
| Throttle.CountStaysBounded | apps/api/src/app/lib/redis-throttler.storage.ts:101-118 | totalHits never exceeds limit + ceil(ttl / blockDuration), and limit + 1 when the block is the window |
| Throttle.ToSeconds | apps/api/src/app/lib/redis-throttler.storage.ts:123-124 | milliseconds round up to seconds, never early and never a second late, and negative ones to none |
| FailOpen.Reporter.ReportFailure | apps/api/src/app/lib/redis-throttler.storage.ts:382-403 | counts one fail-open and writes a line at most every ten seconds, which says how many went without one |
| FailOpen.Reporter.NoteRecovery | apps/api/src/app/lib/redis-throttler.storage.ts:406-419 | closes an outage with a line for what is pending, once |
| FailOpen.Replay | apps/api/src/app/lib/redis-throttler.storage.ts:382-419 | over every history the lines and what is pending account for each fail-open exactly once |
| FailOpen.RunsAtMostOnce | apps/api/src/app/lib/redis-throttler.storage.ts:277-345 | over every interleaving of reply, lost reply, NOSCRIPT, deadline and reconnects one request runs the script at most once, plus once for each time the client resent a command that had run; a request that was counted was run, exactly so often |
| FailOpen.ToldByTheFirst | apps/api/src/app/lib/redis-throttler.storage.ts:221-241 | a caller is told by the reply, its loss or the deadline, whichever comes first: it is counted exactly if that is a reply, read, of a script that ran |
| FailOpen.LetThroughYetCharged | apps/api/src/app/lib/redis-throttler.storage.ts:221-240 | a request may be let through as uncounted though the script ran for it, when its reply is lost or cannot be read |
| FailOpen.NoEvalAfterDeadline | apps/api/src/app/lib/redis-throttler.storage.ts:293-305 | once the deadline has fired the request stays let through and no new EVAL is sent for it; one gets on the wire only by a reconnect, and only if it had been sent before and its answer not read |
| FailOpen.EvalFollowsExactly | apps/api/src/app/lib/redis-throttler.storage.ts:254-260 | after the deadline an EVAL may yet get on the wire if and only if one was sent whose answer the client has not read |
| FailOpen.AResentEvalRunsAfterDeadline | apps/api/src/app/lib/redis-throttler.storage.ts:254-269 | such a request: EVAL is sent and run, the deadline fires, the connection drops, and the script runs a second time |
| HostRule.MatchesWildcard | apps/api/src/app/lib/host-rule.ts:55-81 | the loop computes the specified match in fewer than (text + 1) * (pattern + 1) rounds |
| HostRule.OnlyTheLastStarMatters | apps/api/src/app/lib/host-rule.ts:65-70 | at a new star, a match that an earlier star could still reach is reached from this one too |
| HostRule.MatchesMeans | apps/api/src/app/lib/host-rule.ts:61-74 | from any state of the loop, it matches exactly when the rest is a glob match now or after backing up to the last star |
| HostRule.MatcherIsGlob | apps/api/src/app/lib/host-rule.ts:49-81 | for every pattern and every text without a star the matcher is the glob relation |
| HostRule.MatcherIsExactOffStars | apps/api/src/app/lib/host-rule.ts:62-67 | a text is matched rightly against every pattern if and only if it holds no star |
| HostRule.ReadsExactly | apps/api/src/app/lib/host-rule.ts:159-171 | a Host value is read as a host if and only if it is that IPv6 address in brackets, or that name in any case, of 1 to 253 name characters with perhaps one dot more at its end, and then nothing or a colon and digits |
| HostRule.AnswersMeans | apps/api/src/app/lib/host-rule.ts:195-218 | the rule lets through exactly no header, or a value that names, in that sense, an IP literal, localhost, an own name, or a name in the glob of a pattern |
| ImageRules.PublishProblems | libs/scripts/src/image-tags/rules.js:232-258 | the problems in the source's order, and none exactly when the index lists each tested platform once, with its tested digest naming the commit, and nothing else |
| ImageRules.ProblemsAreThoseThatHold | libs/scripts/src/image-tags/rules.js:232-258 | the problems reported are those that are so of the index, each and no other: untested, wrong digest, wrong commit, unlisted, listed so many times, or no index |
| ImageRules.NamedMeansAllName | libs/scripts/src/image-tags/rules.js:208-215 | a tag names a commit exactly when there are images under it and every one names that full commit |
| ImageRules.ExactIndexNamesItsCommit | libs/scripts/src/image-tags/rules.js:208-258 | an index that publishProblems passes as a commit's is read back as naming that commit |
| ImageRules.ReusesExactly | libs/scripts/src/image-tags/rules.js:70-85 | a build is made exactly where there is no tag; an image is taken up exactly if the tag's index lists it first for the platform and it names the commit; and where there is a tag that offers none, the job stops |
| ImageRules.RepeatReusesWhatWasTested | libs/scripts/src/image-tags/rules.js:70-85 | over such a tag a build of the same commit takes up the tested digest on each platform, and a build of any other stops |
| ImageRules.MovesExactlyForward | libs/scripts/src/image-tags/rules.js:137-197 | edge moves exactly when the commit is on master and no earlier than what edge names, or there is no edge anywhere and it is master's tip; it warns exactly when the commit is on master and BGE's edge alone is gone, names no commit, or is on another line |
| ImageRules.AWarnedEdgeMovesExactly | libs/scripts/src/image-tags/rules.js:105-115 | after the warning that no commit will move it, an edge that names a revision is moved by exactly those later commits on master that descend from it, and one that names none by none |
| ImageRules.AMergeMovesAWarnedEdge | libs/scripts/src/image-tags/rules.js:105-115 | such a commit is the merge of the revision and the commit that was asked about |
| PublishImages.Registry.CheckShaTag | libs/scripts/src/bin/publish-images.js:50-70 | writes nothing; a tag that stays is the one there, exactly this commit's, and otherwise there is none and the planned index is; it errs only for a failed call, a tag that is not the commit's, or a plan that is not |
| PublishImages.Registry.WriteShaTag | libs/scripts/src/bin/publish-images.js:77-90 | writes only the planned, absent tag, and what it returns was read back as exactly the tested images' index; it errs only for a failed call, or a tag that is not so or was removed |
| PublishImages.Registry.CheckShaTags | libs/scripts/src/bin/publish-images.js:178 | every image's tag is checked before the first is written, so a failed check writes nothing |
| PublishImages.Registry.WriteShaTags | libs/scripts/src/bin/publish-images.js:179 | on success every image has exactly its tested images' index, and no edge was written |
| PublishImages.Registry.MoveEdge | libs/scripts/src/bin/publish-images.js:93-103 | an edge that is written is read back as the index it was pointed at; it errs only for a failed call or an edge removed since |
| PublishImages.Registry.MoveEdges | libs/scripts/src/bin/publish-images.js:195 | each move keeps every gateway's edge behind the BGE image's, in whatever state a failure leaves them; on success all name the commit, each seen at its index; it errs only for a failed call or a removed edge |
| PublishImages.Registry.Publish | libs/scripts/src/bin/publish-images.js:157-201 | a whole run that does not err leaves each sha tag seen as exactly the tested images' index, and moves edge if and only if what it saw of master's tip and of every edge, at states of the run, allows it: the commit on master, and BGE's edge naming an ancestor, or no edge anywhere and the commit the tip; it errs only for a bad commit, a failed call, or something in the registry; and every state it goes through, however it ends, is one the three properties below allow |
| PublishImages.Registry.Serve | libs/scripts/src/bin/publish-images.js:14-16 | in all the states that any sequence of runs, one at a time, with crashes, removals and merges between their calls, takes the registry through: no edge moves back, no gateway's is ahead of BGE's nor that of master, and a sha tag is the same index for as long as it is there |
| PublishImages.EdgeNeverMovesBack | libs/scripts/src/image-tags/rules.js:15-17 | from what each step keeps: at a later time each package's edge names a descendant of, or the same commit as, at an earlier one |
| PublishImages.GatewaysNeverGetAhead | libs/scripts/src/bin/publish-images.js:23-26 | from what each state keeps: whenever the BGE image has an edge, every gateway's edge is an ancestor of it or the same, and it is on master |
| PublishImages.ShaTagsAreWriteOnce | libs/scripts/src/image-tags/rules.js:13-14 | from what each step keeps: for as long as a sha tag is there it is the same index |
| Template.ScanExpression | apps/api-e2e/src/support/shipped-sql.ts:480-509 | the inner loop finds the brace that closes the interpolation, or the error |
| Template.ScanTemplate | apps/api-e2e/src/support/shipped-sql.ts:462-537 | the scanner's loops compute the specified text, parameters or error |
| Template.ReadAsWritten | apps/api-e2e/src/support/shipped-sql.ts:462-537 | a template as it is written is lifted exactly, literals, numbered placeholders and trimmed expressions, whatever follows it; refused exactly when a digit follows an interpolation |
| Template.LiftedWasWritten | apps/api-e2e/src/support/shipped-sql.ts:462-537 | nothing else is lifted: whatever is lifted stood there as such a template |
| Template.TrimsSpace | apps/api-e2e/src/support/shipped-sql.ts:525 | trimming takes off the white space at both ends, all of it and nothing else |
| Template.RefusedBrokeOff | apps/api-e2e/src/support/shipped-sql.ts:462-537 | what is refused was the beginning of a template, up to what the error names: the end of the text, an interpolation with no closing brace, a backtick inside one, or a digit after one |
| Template.NumberReadsDecimal | apps/api-e2e/src/support/shipped-sql.ts:162-163 | the number of a rendered placeholder reads back as its position |
| Template.ReplacedPieceByPiece | apps/api-e2e/src/support/shipped-sql.ts:162-177 | no match of a placeholder reaches across a place where no digit follows |
| Template.RefusesExactly | apps/api-e2e/src/support/shipped-sql.ts:154-178 | a binding is refused exactly for the wrong number of values, or for the first number in the text that has no value |
| Template.BindsBackExactly | apps/api-e2e/src/support/shipped-sql.ts:154-178 | scanning and binding gives back the literals with the values between them, for every choice of values, if and only if no literal has a dollar sign with a digit after it |
| Template.EscapingDoesNotHelp | apps/api-e2e/src/support/shipped-sql.ts:166-174 | anywhere in any template, behind a backslash with a dollar sign and digits after it the value of that number is bound, and the binding is refused if there is none, as there never is without an interpolation |
| DrainQueue.ProcessedMeans | apps/api-e2e/src/support/queues.ts:331-356 | event by event, the started set is the jobs active and not completed since, finished counts completions, and an error names the job of the first event that shows a failure or a retry |
| DrainQueue.ProcessedIsClean | apps/api-e2e/src/support/queues.ts:271-286 | the events were got through with as many completions as expected exactly when none failed, none was retried and exactly so many completed |
| DrainQueue.MarkSplits | apps/api-e2e/src/support/queues.ts:222-235 | everything appended after a mark is after it, and nothing before |
| DrainQueue.ReadingOn | apps/api-e2e/src/support/queues.ts:320-327 | reading on from the cursor misses nothing and repeats nothing |
| DrainQueue.Queue.MarkEvents | apps/api-e2e/src/support/queues.ts:230-235 | the mark is the last id of the stream, or 0-0 |
| DrainQueue.Queue.AwaitCount | apps/api-e2e/src/support/queues.ts:163-175 | it counts once an interval until the expected count comes, and gives up only at a clock read past the deadline, timeoutMs having passed, if no count was the expected one |
| DrainQueue.Queue.HoldCount | apps/api-e2e/src/support/queues.ts:177-190 | it goes on counting once an interval until a clock read past settleMs, and says that the count moved only if a count within that time was another |
| DrainQueue.Queue.WaitForStableJobCount | apps/api-e2e/src/support/queues.ts:151-191 | a normal return means the count was as expected at every poll over at least settleMs; "never reached" comes only after timeoutMs without one such count, and "moved" only after one such count and, inside the window, another; and it asks for the time, sleeps and counts in no other pattern |
| DrainQueue.Drain.TakeEntries | apps/api-e2e/src/support/queues.ts:321-357 | a reply's entries are taken once each, the cursor's own left out, up to the first trouble |
| DrainQueue.Drain.ReadNewEvents | apps/api-e2e/src/support/queues.ts:320-358 | after a read the state is that of all events after the mark so far, or the error is theirs |
| DrainQueue.Drain.AwaitFinished | apps/api-e2e/src/support/queues.ts:366-379 | it reads the stream once an interval until the expected jobs have finished, there is trouble in it, or a clock read is past the deadline with too few, as many as completed in the stream as it was last read; no read before the last had enough |
| DrainQueue.Drain.FinishJobs | apps/api-e2e/src/support/queues.ts:366-383 | exactly the expected jobs have finished, or the error is justified by the stream; too few only with the whole of timeoutMs past |
| DrainQueue.Drain.Settle | apps/api-e2e/src/support/queues.ts:385-404 | a normal return needs the settle window at none pending and one more read that shows nothing more; the wait has what is left of the time to the deadline, so it gives up only past that, with no count of zero; what the last read shows comes first |
| DrainQueue.DrainQueue | apps/api-e2e/src/support/queues.ts:291-404 | a normal return means every event after the mark up to the last read was taken once, exactly the expected number completed, none failed, none was retried, and nothing was pending for settleMs; every error is justified by what was read, the number in each by the completions there; too few finished, or none pending never reached, only after the whole of timeoutMs, the second without one count of zero; and over the whole call it asks for the time, sleeps, reads and counts in the pattern of the source |

## Left out

- The TypeScript parser, comment blanking and regular expressions: a leaf carries the names it mentions, and whether it mentions a claim is a predicate of them.
- ClaimDelegates.Audit: finding the write sites (`matchesWrite`, `guardedText`) and the exemption for a fresh install's row are not modelled; it takes a site as given.
- Deadlocks between two rows of one stage, for which the order has no rule; and, of the plugin services in libs/plugin/runtime, all but the order and the modes in which they take their locks.
- Real files, Redis, registry and GitHub calls, beyond their effects on names, keys, tags and ancestry.
- LockReclaim.ReclaimIsJustified: no run starts with an unreadable lock file, and none comes to have one, so the grace period is there for a state that the model does not reach.
- LockCalls.Lock.Acquire: the number of turns of its loop is a parameter; `LockWaiter` proves that it ends.
- The message `acquire` throws, which reads the holder once more, and the names of scratch files, which may be any.
- GenerateCalls.Workspace.Acquire: how many steps it is followed for is a parameter, and inside it and release the lock takes the steps that `LockCalls` proves of its code; an I/O error in release is a step of other runs only.
- How the fingerprint is computed, and what else the generator writes.
- ExportCalls.Workspace.Acquire: how many steps it is followed for is a parameter, and the lock takes the steps that `LockCalls` proves of its code; an I/O error in release is not a step of this run.
- ExportCalls.Workspace.ExportProtos: making and removing its own staging directory, which no other run touches, and the export itself, of which only the status counts.
- ClaimExactness.GuardedExactly: exact over executions in which any condition may go either way and any expression may throw; a write that only a constant condition keeps from being reached counts as reached.
- HostRule.AnswersMeans: how a configured origin becomes a pattern (`hostPatternOf`, `urlHostOf`, `domainToASCII`) is not modelled; patterns, own names and the IP tests are parameters.
- `allowsEveryHost`, a warning heuristic.
- FailOpen.RunsAtMostOnce: a reconnect's resend is counted and not excluded, since the client does resend.
- Which replies of the script cannot be read (`toRecord`): a reply may fail to be, at any time. And the meter and logger behind the counters and lines.
- `testedDigests`, `inspectFailure` and the parsing of registry replies: the model starts from tested digests and tags.
- PublishImages.Registry.WriteShaTag: the index the registry writes may be any, since the source checks it only afterwards; a tag whose check fails is left as it is, as in the source.
- Finding where a template starts in a source file, and the comparison of parameters with what a spec expects.
- Template.BindsBackExactly: a literal's escapes stay as they are written, so a template with a backslash does not bind to what the program builds from it.
- DrainQueue.DrainQueue: the reason a retried job failed for, which is read from the job for the message; and `obliterate`, after which a mark must be taken again.
- Proxies' addresses (`ip-tracker.ts`), roles, the shadow database, the post-processing of generated columns, pagination and configuration: each decides one value from its input, with no protocol, loop or analysis behind it.
