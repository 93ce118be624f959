# Verified models of the notes repository's algorithms

The repository collects notes and example programs. A handful of them hold real
algorithms: two interpreters for one small language, a directory cache driven by inotify
events, a namespace forest with a text wrapper, two concurrent protocols, two dynamic
programs, message framing over a pipe, and a linked list. This project models those in
Dafny 4.11 and proves what they are meant to guarantee. `dafny verify dfyconfig.toml`
verifies everything.

## The files

| file | subject |
|---|---|
| `SimpleSyntax`, `SimpleSmallStep`, `SimpleBigStep`, `SimpleEquivalence`, `SimpleTyping`, `SimpleMachine`, `SimplePrograms`, `SimpleNil` | the language SIMPLE: reduction machine, recursive evaluator, their equivalence, types, the sample loop, programs with results known in integers, and Ruby's nil |
| `PathNames`, `DirTree`, `WatchCache`, `EventHandler` | the inotify directory cache: pathnames, directory trees, the slot array, the handling of one event |
| `DtreeInvariant`, `DtreeProgram`, `DtreeSteps`, `DtreeLeaving`, `DtreeMoving`, `DtreeProtocol`, `DtreeConvergence`, `DtreeRace` | the same as a system of steps: the invariant, the program's scan, the steps, a pending rename out of the trees and one within them, what every run keeps, convergence, and exactly which races go wrong |
| `RawEvents`, `EventLoop`, `EventBuffer`, `EventRebuild`, `DtreeBytes`, `DtreeRebuild` | its event loop: events as bytes, the loop without the bytes, the loop on the byte buffer, its rebuilds, and that loop joined with the system of steps, without and with overflows |
| `NamespaceForest`, `NamespaceDisplay`, `NamespaceOrder`, `TextWrap` | the namespace list, its display recursion, the order of the display, greedy line wrapping |
| `ThreadCounter`, `Semaphore`, `SemaphoreProgress` | the unsynchronised counter, and the System V semaphore start-up protocol: what it never lets happen and what it always lets happen |
| `Knapsack`, `Lis` | dynamic programming |
| `Bytes`, `PipeFraming` | little-endian structs and record framing over a shared pipe |
| `SinglyLinkedList` | the linked list with a tail reference |
| `Options` | the option type |

## How things are modelled

- **Exceptions and nil.** A Ruby exception is `None` (machine) or `Raised` (evaluator). An
  unbound variable counts as stuck in both interpreters; the `Machine` object keeps the
  one step that Ruby still takes when nil gets into a statement; `SimpleNil` models the evaluator
  as Ruby really runs it, where nil can be stored, and says when that makes a difference.
  The misspelt `flase` in big-step.rb is read as `false`, and DoNothing, which big-step.rb
  lacks, evaluates to the unchanged environment. Evaluation takes a fuel bound that only
  loops use up; all theorems quantify over it.
- **Kernel and scheduler.** System calls are steps of a transition system. Schedules,
  crashes, the order in which a directory scan proceeds, how many events a `read()`
  returns and whether it is interrupted are left open, so the theorems hold for all of
  them. The namespace ioctls are functions given as a parameter, with a depth that only
  witnesses that parents never cycle.
- **The file system** of the inotify model is a map from inodes to (parent, name). A rename
  changes one entry; pathnames are derived. Kernel watches belong to inodes, events are
  queued in order, and a directory's entries are read only after its watch is in place. A
  listing returns every entry that was there throughout and possibly newer ones.
- **Which file system changes are covered.** Directories may be created, removed and moved
  in from unmonitored places at any time, also in the middle of a scan and while a rename
  within the trees is still in the queue. A monitored directory is renamed, inside the
  trees or out of them, when everything the program has still to look into (a path to
  visit, an open listing, an announced entry) is apart from its old and its new place. Until
  the program has seen that, no other monitored directory is renamed, and if the directory
  has left the trees nothing else changes. For one creation and one rename that the
  program has not read of, `DtreeRace` says exactly which renames are harmless and how the
  cache goes wrong in all other cases. After a queue overflow anything may happen until the
  overflow event has been handled.
- **The event loop** is given as inputs what it does not decide: how many events each
  read() finds, how many come before the alarm rings, which watches are still there to be
  removed, and which directories a scan meets. The loop without the bytes is proved for
  every handler that obeys a few laws; the handler of the program does. `DtreeBytes` takes
  these inputs from a run of the system of steps, the k-th event's watches and visits being
  those at the moment the program handles it there, and shows that the loop on the bytes of
  the events queued in that run ends with that run's cache. `DtreeRebuild` does the same for
  what comes after a rebuild: the events read before it are any that have led to one, and
  reads do not mix the events of the closed inotify instance with those of the new one.
- **Line 1136 of inotify_dtree.c** tests `errno != -1` where `nr != -1` was meant, so that an
  interrupted second read shortens the byte count by one. `EventBuffer` models the line as
  written; the loop still meets its specification.
- **Integers** are unbounded, except where the C structs are laid out in bytes
  (`Bytes`, `PipeFraming`, `EventBuffer`). `ThreadCounter.PrintableValues` shows that the
  counter never exceeds 2 * loops.

## Model

| member | source | states |
|---|---|---|
| SimpleEquivalence.InterpretersAgree | Understanding-Computation/simple-step.rb:150-239 | for every statement and environment: the machine halts with an environment iff the evaluator returns it, gets stuck iff it raises, runs forever iff it never returns |
| SimpleEquivalence.RunIsEvaluated | Understanding-Computation/simple-step.rb:228-239 | a run of n steps that halts or gets stuck is an evaluation with fuel n |
| SimpleEquivalence.DoneIsRun | Understanding-Computation/big-step.rb:95-149 | an evaluation that returns is a halting run of exactly Cost steps |
| SimpleEquivalence.RaisedIsRun | Understanding-Computation/big-step.rb:95-149 | an evaluation that raises is a run that gets stuck |
| SimpleEquivalence.StepBack | Understanding-Computation/simple-step.rb:150-225 | undoing one reduction keeps the evaluator's answer, with one more unit of fuel |
| SimpleEquivalence.StepCountIsCost | Understanding-Computation/simple-step.rb:233-239 | the length of a halting run is the evaluation's Cost, whatever the fuel |
| SimpleEquivalence.ReduceKeepsValue | Understanding-Computation/simple-step.rb:28-116 | one reduction keeps an expression's value and uses up exactly one operator or variable node |
| SimpleEquivalence.ExprReachesValue | Understanding-Computation/big-step.rb:38-83 | an expression with a value reduces to it in exactly as many steps as it has operator and variable nodes |
| SimpleEquivalence.ExprValueIsEvaluated | Understanding-Computation/simple-step.rb:28-116 | whatever value reduction ends in is the evaluator's, after that many steps |
| SimpleEquivalence.ExprRaises | Understanding-Computation/simple-step.rb:28-116 | an expression without a value reduces to one that raises |
| SimpleEquivalence.WhileTurns | Understanding-Computation/simple-step.rb:223-225 | one turn of a loop takes the condition's steps, the body's steps and three more |
| SimpleBigStep.FuelMonotone | Understanding-Computation/big-step.rb:142-149 | an answer found with some fuel is found with any larger fuel |
| SimpleSmallStep.SequenceSplits | Understanding-Computation/simple-step.rb:199-207 | a halting run of a sequence splits, in one way only, into a run of the first, one step, and a run of the second |
| SimpleSmallStep.SequenceComposes | Understanding-Computation/simple-step.rb:199-207 | two halting runs compose, and the step counts add with one |
| SimpleSmallStep.HaltingIsUnique | Understanding-Computation/simple-step.rb:229-239 | a halting run has one length and one final environment |
| SimpleTyping.StepSoundness | Understanding-Computation/simple-step.rb:150-225 | a well-typed configuration is finished or steps to a well-typed one, through loop unfolding too |
| SimpleTyping.ExprSoundness | Understanding-Computation/simple-step.rb:28-116 | a well-typed expression is a value or reduces, and keeps its type |
| SimpleTyping.RunSoundness | Understanding-Computation/simple-step.rb:228-239 | every configuration a well-typed program reaches is well-typed and finished or able to step |
| SimpleTyping.WellTypedNeverRaises | Understanding-Computation/big-step.rb:95-149 | neither interpreter fails on a well-typed program; it finishes with a well-typed environment or runs forever |
| SimpleTyping.TypedIffValued | Understanding-Computation/big-step.rb:38-83 | an expression over variables of the context has a value iff it has a type, and the value is of that type |
| SimpleMachine.Machine.Advance | Understanding-Computation/simple-step.rb:229-231 | one step, or a statement spoilt by nil, or an exception that leaves the fields alone, and which of the three |
| SimpleMachine.Machine.Run | Understanding-Computation/simple-step.rb:233-239 | however many turns of the loop are observed: it has ended with what the evaluator returns, or failed where the evaluator raises, or taken just as many steps and can go on |
| SimpleMachine.LoopHalts | Understanding-Computation/simple-step.rb:242-248 | from x >= 1 the sample loop stops after exactly 8k + 4 steps with x * 3^k, k least with x * 3^k >= 5 |
| SimpleMachine.LoopHaltsIffPositive | Understanding-Computation/simple-step.rb:242-248 | the sample loop halts iff x >= 1 and runs forever iff x <= 0, where the evaluator never returns either |
| SimplePrograms.SumIsGauss | Understanding-Computation/simple-step.rb:28-225 | for every n >= 0, from i = 0 and s = 0, `while (i < n) { s = s + i; i = i + 1 }` halts on the machine and returns from the evaluator with i = n, 2 * s = n * (n - 1) and nothing else changed |
| SimplePrograms.SumFrom | Understanding-Computation/big-step.rb:38-149 | from any i <= n the loop adds up the numbers i to n - 1 |
| SimplePrograms.SumOfNone | Understanding-Computation/big-step.rb:38-149 | with n <= i both interpreters leave everything as it was |
| SimplePrograms.MaxIsLarger | Understanding-Computation/simple-step.rb:150-198 | `if (x < y) { m = y } else { m = x }` ends in both interpreters with the larger number in m |
| SimplePrograms.BothAreWellTyped | Understanding-Computation/simple-step.rb:28-225 | the type checker accepts both programs |
| SimpleNil.RubyFollows | Understanding-Computation/big-step.rb:72-149 | with nil modelled, Ruby's evaluation returns the same environment or keeps looping wherever the strict evaluator does |
| SimpleNil.NilStaysNil | Understanding-Computation/big-step.rb:109-149 | an evaluation that got nil for an environment never returns an environment |
| SimpleNil.RubyStepKeeps | Understanding-Computation/big-step.rb:95-149 | what Ruby's evaluation returns, it still returns after a step of the machine |
| SimpleNil.PartsOnlyAtUnboundCopy | Understanding-Computation/big-step.rb:95-97 | where Ruby's evaluation returns an environment and the machine gets stuck, the machine is stuck at a copy of an unbound variable |
| SimpleNil.RubyReturnsOrParts | Understanding-Computation/big-step.rb:81-149 | for every program: an environment that Ruby's evaluation returns is the one the machine halts with, unless the machine comes to such a copy |
| SimpleNil.RubyStepBack | Understanding-Computation/big-step.rb:95-149 | what Ruby's evaluation returns after a step of the machine, it returns before it with one more unit of fuel |
| SimpleNil.AgreeIffNotPast | Understanding-Computation/big-step.rb:81-149 | for every program and environment: Ruby's evaluation returns just the environments the machine halts with iff the machine does not come to a copy of an unbound variable that Ruby's evaluation gets past |
| SimpleNil.RubyAgreesWithMachine | Understanding-Computation/big-step.rb:81-149 | so it is for all programs without bare copies and all well-typed programs |
| SimpleNil.AssignPartsOnUnboundCopy | Understanding-Computation/big-step.rb:95-97 | for one assignment the two files part exactly on a copy of an unbound variable |
| SimpleNil.HiddenDisagreement | Understanding-Computation/big-step.rb:95-97 | the disagreement can leave no trace in the environment that is returned |
| SimpleNil.NumberAsCondition | Understanding-Computation/big-step.rb:109-149 | where the condition of an `if` or `while` is a number the machine gets stuck, Ruby's evaluation returns nil for an environment, and a following assignment raises |
| PathNames.CoversJoin | The-Linux-Programming-Interface/tlpi-dist/inotify/inotify_dtree.c:608-611 | the prefix test holds of a path iff it is that path or the test holds of its directory; siblings with a longer name are left alone |
| DirTree.PathInjective | The-Linux-Programming-Interface/tlpi-dist/inotify/inotify_dtree.c:326-334 | monitored directories with equal pathnames are the same directory |
| DirTree.CoversIffBelow | The-Linux-Programming-Interface/tlpi-dist/inotify/inotify_dtree.c:646-650 | the prefix test on pathnames finds exactly the directories of a subtree |
| DirTree.RenamePaths | The-Linux-Programming-Interface/tlpi-dist/inotify/inotify_dtree.c:592-624 | a rename rebases the pathnames of the moved directory and all below it, and of no other |
| WatchCache.FindWatch | The-Linux-Programming-Interface/tlpi-dist/inotify/inotify_dtree.c:232-240 | the first slot with a descriptor, or -1 iff there is none |
| WatchCache.AddWatchContents | The-Linux-Programming-Interface/tlpi-dist/inotify/inotify_dtree.c:286-321 | adding a new descriptor adds exactly that entry, in a free slot or in a grown array |
| WatchCache.ClearContents | The-Linux-Programming-Interface/tlpi-dist/inotify/inotify_dtree.c:273-282 | clearing a slot removes exactly its entry |
| WatchCache.RewriteContents | The-Linux-Programming-Interface/tlpi-dist/inotify/inotify_dtree.c:596-624 | rewriting keeps all descriptors, rebases the covered paths and no others |
| WatchCache.ZapContents | The-Linux-Programming-Interface/tlpi-dist/inotify/inotify_dtree.c:630-677 | zapping removes exactly the covered entries |
| WatchCache.Cache.FindSlot | The-Linux-Programming-Interface/tlpi-dist/inotify/inotify_dtree.c:232-240 | the searching loop finds what FindWatch specifies |
| WatchCache.Cache.PathnameToSlot | The-Linux-Programming-Interface/tlpi-dist/inotify/inotify_dtree.c:326-334 | the first used slot with the pathname, or a negative result iff none has it |
| WatchCache.Cache.MarkEmpty | The-Linux-Programming-Interface/tlpi-dist/inotify/inotify_dtree.c:273-282 | one slot becomes unused, the others keep their contents |
| WatchCache.Cache.FindEmptySlot | The-Linux-Programming-Interface/tlpi-dist/inotify/inotify_dtree.c:286-308 | the first unused slot, or the first of 200 new ones |
| WatchCache.Cache.AddWatchToCache | The-Linux-Programming-Interface/tlpi-dist/inotify/inotify_dtree.c:312-321 | the contents gain exactly the new descriptor and its path |
| WatchCache.Cache.TraverseTree | The-Linux-Programming-Interface/tlpi-dist/inotify/inotify_dtree.c:500-551 | a directory that has gone or whose descriptor is cached changes nothing, any other is cached |
| WatchCache.Cache.RewriteCachedPaths | The-Linux-Programming-Interface/tlpi-dist/inotify/inotify_dtree.c:596-624 | the in-place loop rewrites every slot as Rewrite specifies |
| WatchCache.Cache.ZapSubtree | The-Linux-Programming-Interface/tlpi-dist/inotify/inotify_dtree.c:630-677 | -1 iff removing some covered watch fails, then with the slots before the first such one cleared; else all covered slots are cleared and counted |
| EventHandler.ProcessNextEvent | The-Linux-Programming-Interface/tlpi-dist/inotify/inotify_dtree.c:734-1032 | the branches and loops on the cache object have the effect and verdict that Handle specifies |
| EventHandler.ZapOrRebuild | The-Linux-Programming-Interface/tlpi-dist/inotify/inotify_dtree.c:945-957 | a subtree is zapped, or the cache is freed for a rebuild |
| EventHandler.HandlerVerdict | The-Linux-Programming-Interface/tlpi-dist/inotify/inotify_dtree.c:744-1032 | exactly when the handler rebuilds, exactly when it quits, and otherwise when it asks for more, takes a pair or takes one event |
| EventHandler.ViewIrrelevant | The-Linux-Programming-Interface/tlpi-dist/inotify/inotify_dtree.c:900-963 | unless the event is put off, neither what else is in view nor the number of tries makes a difference |
| EventHandler.HandleKeepsValid | The-Linux-Programming-Interface/tlpi-dist/inotify/inotify_dtree.c:734-1032 | no event makes a descriptor be cached twice |
| EventHandler.RootsAfter | The-Linux-Programming-Interface/tlpi-dist/inotify/inotify_dtree.c:810-1026 | exactly the roots that were removed or moved away are given up, also when the cache is rebuilt |
| EventHandler.ContentsAfter | The-Linux-Programming-Interface/tlpi-dist/inotify/inotify_dtree.c:744-1032 | for every event: exactly the descriptors of directories removed, unmounted, moved out of the trees or below a moved root are dropped, exactly the paths a rename moved are changed, a rebuild starts from an empty cache |
| EventHandler.AsksAfter | The-Linux-Programming-Interface/tlpi-dist/inotify/inotify_dtree.c:781-1026 | exactly the watches of directories that have moved out of sight are removed, and a scan is asked for exactly for a new directory that is not cached |
| DtreeInvariant.QuietIsInSync | The-Linux-Programming-Interface/tlpi-dist/inotify/inotify_dtree.c:18-25 | with the queue drained and the scan over, the invariant makes the cached descriptors and paths exactly those of the monitored directories |
| DtreeInvariant.RebuildInv | The-Linux-Programming-Interface/tlpi-dist/inotify/inotify_dtree.c:687-725 | a rebuild from nothing establishes the invariant for any trees |
| DtreeInvariant.MkdirInv | The-Linux-Programming-Interface/tlpi-dist/inotify/inotify_dtree.c:781-805 | creating a directory at any moment, also during a scan, keeps the invariant |
| DtreeInvariant.RmdirInv | The-Linux-Programming-Interface/tlpi-dist/inotify/inotify_dtree.c:810-822 | removing an empty directory at any moment keeps the invariant |
| DtreeInvariant.RenameInInv | The-Linux-Programming-Interface/tlpi-dist/inotify/inotify_dtree.c:768-808 | moving in a subtree from outside at any moment keeps the invariant |
| DtreeInvariant.FileInv | The-Linux-Programming-Interface/tlpi-dist/inotify/inotify_dtree.c:734-760 | events about plain files keep the invariant |
| DtreeProgram.VisitInv | The-Linux-Programming-Interface/tlpi-dist/inotify/inotify_dtree.c:500-551 | visiting a directory during the scan keeps the invariant |
| DtreeProgram.MissInv | The-Linux-Programming-Interface/tlpi-dist/inotify/inotify_dtree.c:500-525 | finding that a directory on the scan has gone keeps the invariant |
| DtreeProgram.ListInv | The-Linux-Programming-Interface/tlpi-dist/inotify/inotify_dtree.c:558-576 | listing a directory, with or without its newest entries, keeps the invariant |
| DtreeProgram.AnnouncementHandled | The-Linux-Programming-Interface/tlpi-dist/inotify/inotify_dtree.c:781-808 | when the event announcing a directory is handled, the directory is watched already or goes on to be scanned: a cached path is never a stale one here |
| DtreeProgram.EventInv | The-Linux-Programming-Interface/tlpi-dist/inotify/inotify_dtree.c:744-822 | handling the first event keeps the invariant |
| DtreeProgram.RewriteInv | The-Linux-Programming-Interface/tlpi-dist/inotify/inotify_dtree.c:910-932 | a rename within the trees, clear of what is pending, and the rewriting of the cached paths keep the invariant at any moment, also during a scan |
| DtreeProgram.RenameOutInv | The-Linux-Programming-Interface/tlpi-dist/inotify/inotify_dtree.c:936-957 | a rename out of the trees and zapping the subtree restore the invariant |
| DtreeProgram.QuietIsClear | The-Linux-Programming-Interface/tlpi-dist/inotify/inotify_dtree.c:1046-1152 | when the program is at rest every rename meets the condition on renames |
| DtreeProgram.PendingLeads | The-Linux-Programming-Interface/tlpi-dist/inotify/inotify_dtree.c:781-808 | to every monitored directory that is not watched something leads that the program has still to look into |
| DtreeProgram.MovedIsWatched | The-Linux-Programming-Interface/tlpi-dist/inotify/inotify_dtree.c:592-624 | everything at or below a renamed directory that is clear of what is pending is watched, so that the rewriting reaches it |
| DtreeProgram.ResolvesAlike | The-Linux-Programming-Interface/tlpi-dist/inotify/inotify_dtree.c:592-624 | a path apart from the old and the new place leads to the same directory before and after a rename |
| DtreeSteps.GoodHeadOutcome | The-Linux-Programming-Interface/tlpi-dist/inotify/inotify_dtree.c:744-822 | the handler's effect on the slots is the effect the invariant is proved for |
| DtreeSteps.HandledGood | The-Linux-Programming-Interface/tlpi-dist/inotify/inotify_dtree.c:744-822 | handling the first event leads from a good state to the state that the invariant's step describes |
| DtreeLeaving.LeftVisit | The-Linux-Programming-Interface/tlpi-dist/inotify/inotify_dtree.c:500-551 | with a rename out of the trees pending, visiting a directory has the effect it would have without |
| DtreeLeaving.LeftHandle | The-Linux-Programming-Interface/tlpi-dist/inotify/inotify_dtree.c:744-822 | with such a rename pending, so has handling an event queued before it |
| DtreeLeaving.LeavingStep | The-Linux-Programming-Interface/tlpi-dist/inotify/inotify_dtree.c:936-957 | every step with such a rename pending keeps it pending, or zaps the subtree and puts the cache right, or is an overflow |
| DtreeMoving.MoveStarts | The-Linux-Programming-Interface/tlpi-dist/inotify/inotify_dtree.c:823-932 | after a rename within the trees the state is that of a program which has seen it already, but for the two events in the queue and the cached paths to rewrite |
| DtreeMoving.MoveVisit | The-Linux-Programming-Interface/tlpi-dist/inotify/inotify_dtree.c:500-551 | visiting a directory keeps that relation to the program which has seen the move |
| DtreeMoving.MoveHandle | The-Linux-Programming-Interface/tlpi-dist/inotify/inotify_dtree.c:744-822 | so does handling an event queued before the move |
| DtreeMoving.MoveFs | The-Linux-Programming-Interface/tlpi-dist/inotify/inotify_dtree.c:781-822 | so does making, removing or moving in any directory meanwhile |
| DtreeMoving.MoveEnds | The-Linux-Programming-Interface/tlpi-dist/inotify/inotify_dtree.c:910-932 | the two events of the move lead exactly to the state of the program which has seen it |
| DtreeMoving.MovingStep | The-Linux-Programming-Interface/tlpi-dist/inotify/inotify_dtree.c:823-932 | every step with a move pending keeps it pending, or ends in a good state, or is an overflow |
| DtreeRace.RaceIsHarmlessIff | The-Linux-Programming-Interface/tlpi-dist/inotify/inotify_dtree.c:781-808 | from every idle state, a directory made and then a monitored directory renamed before the program reads of either: every run of the program comes to rest with a right cache iff the rename leads out of the trees, or the new directory neither moves along nor becomes the new parent |
| DtreeRace.ClearIff | The-Linux-Programming-Interface/tlpi-dist/inotify/inotify_dtree.c:781-808 | that is the condition on renames exactly, for renames within the trees |
| DtreeRace.MovedAlongGoesWrong | The-Linux-Programming-Interface/tlpi-dist/inotify/inotify_dtree.c:781-808 | whenever the new directory moves along within the trees, itself or below the renamed one, a run comes to rest with it unwatched |
| DtreeRace.MovedIntoGoesWrong | The-Linux-Programming-Interface/tlpi-dist/inotify/inotify_dtree.c:500-551 | whenever a directory moves into the new one, a run comes to rest with that directory unwatched |
| DtreeRace.MovedOutStaysRight | The-Linux-Programming-Interface/tlpi-dist/inotify/inotify_dtree.c:936-957 | when the new directory leaves the trees with the renamed one, no run goes wrong |
| DtreeProtocol.LostStep | The-Linux-Programming-Interface/tlpi-dist/inotify/inotify_dtree.c:965-983 | once the queue has overflowed, every step keeps the overflow event, or is the rebuild from scratch, which is a good state |
| DtreeProtocol.EveryStateInv | The-Linux-Programming-Interface/tlpi-dist/inotify/inotify_dtree.c:734-1032 | every state of every run is good, or good but for one pending rename, or waiting for its overflow event |
| DtreeProtocol.CacheFollowsTrees | The-Linux-Programming-Interface/tlpi-dist/inotify/inotify_dtree.c:18-25 | in every run, whenever the program is idle the cache holds every directory under the roots exactly once with its true path, and nothing else |
| DtreeProtocol.NeverRebuilds | The-Linux-Programming-Interface/tlpi-dist/inotify/inotify_dtree.c:750-764 | in every run, as long as the queue does not overflow no event finds the cache inconsistent |
| DtreeConvergence.EveryStepIsCloser | The-Linux-Programming-Interface/tlpi-dist/inotify/inotify_dtree.c:558-576 | every step of the program from a good state lowers a limit on the steps it has still to take |
| DtreeConvergence.ScanProgress | The-Linux-Programming-Interface/tlpi-dist/inotify/inotify_dtree.c:558-576 | in any state, good or not, every step of a scan leaves less to scan |
| DtreeConvergence.EveryProgramRunSettles | The-Linux-Programming-Interface/tlpi-dist/inotify/inotify_dtree.c:1046-1152 | from any point of any run, overflown or with a rename pending or not: every run of the program alone, whatever steps it takes, is bounded, and where it cannot go on the cache agrees with the trees, or, only after an overflow, an event ends it |
| DtreeConvergence.EveryStateIsBounded | The-Linux-Programming-Interface/tlpi-dist/inotify/inotify_dtree.c:1046-1152 | the program alone cannot go on forever from any state that a run can come to |
| DtreeConvergence.LostRunsWithin | The-Linux-Programming-Interface/tlpi-dist/inotify/inotify_dtree.c:965-983 | after an overflow the number of steps to the rebuild and beyond it is limited |
| DtreeConvergence.NeverStuck | The-Linux-Programming-Interface/tlpi-dist/inotify/inotify_dtree.c:1046-1152 | a program that has something to do can always step, also with a rename pending |
| DtreeConvergence.ProgramCatchesUp | The-Linux-Programming-Interface/tlpi-dist/inotify/inotify_dtree.c:23-25 | from any point of any run, overflown or not, the program alone gets to an idle state with the cache in agreement with the trees, or, only after an overflow, to an event that ends it |
| EventLoop.HandlerIsLawful | The-Linux-Programming-Interface/tlpi-dist/inotify/inotify_dtree.c:734-1032 | the handler, with its scans and rebuilds, obeys the laws the loop relies on |
| EventLoop.EveryRun | The-Linux-Programming-Interface/tlpi-dist/inotify/inotify_dtree.c:1046-1152 | however the reads cut the stream: every event read is in the log once and in order, all are read unless the program ended, none is put off twice, and the program is as after handling the logged actions one by one |
| EventLoop.AsIfAllInView | The-Linux-Programming-Interface/tlpi-dist/inotify/inotify_dtree.c:1080-1150 | the log is that of a program with the whole stream in view iff there was no rebuild, no end, and no alarm in the middle of a pair |
| EventLoop.CutsMakeNoDifference | The-Linux-Programming-Interface/tlpi-dist/inotify/inotify_dtree.c:1080-1150 | a stream that would be handled without a rebuild and whose pairs arrive in time leaves the same cache however it is cut |
| EventLoop.SplitShows | The-Linux-Programming-Interface/tlpi-dist/inotify/inotify_dtree.c:1087-1110 | if the alarm can ring within some pair, a read that ends there makes a difference |
| EventLoop.CutAnywhereIffPairsArrive | The-Linux-Programming-Interface/tlpi-dist/inotify/inotify_dtree.c:1080-1150 | a stream that would be handled without a rebuild is handled so under all cuts iff every pair arrives before the alarm rings |
| EventRebuild.VisitedExactly | The-Linux-Programming-Interface/tlpi-dist/inotify/inotify_dtree.c:687-725 | a scan from an empty cache caches exactly the descriptors the kernel gave out, each with the path of its first visit |
| EventRebuild.RebuildTurn | The-Linux-Programming-Interface/tlpi-dist/inotify/inotify_dtree.c:750-764 | a turn that rebuilds drops everything in the buffer, keeps the roots that are still there, and caches exactly what the scan of them meets |
| EventRebuild.EveryOverflowRebuilds | The-Linux-Programming-Interface/tlpi-dist/inotify/inotify_dtree.c:965-983 | in every run on bytes: no overflow event is ever passed over, and right after a rebuild the cache is that of the scan |
| EventRebuild.OverflowEndsInRebuild | The-Linux-Programming-Interface/tlpi-dist/inotify/inotify_dtree.c:965-983 | a stream that ends with an overflow event leaves the program right after a rebuild, unless it has ended |
| EventRebuild.RunsOn | The-Linux-Programming-Interface/tlpi-dist/inotify/inotify_dtree.c:1046-1152 | on a stream whose two parts are read one after the other, the loop goes on with the second from where it got to with the first |
| EventBuffer.Decode | The-Linux-Programming-Interface/tlpi-dist/inotify/inotify_dtree.c:734-741 | the fields and the length read from the bytes at an event are that event's |
| EventBuffer.View | The-Linux-Programming-Interface/tlpi-dist/inotify/inotify_dtree.c:900-906 | the event at the front of the buffer, and the next one iff one is there, read within the end of the buffer |
| EventBuffer.Traverse | The-Linux-Programming-Interface/tlpi-dist/inotify/inotify_dtree.c:500-576 | the calls of traverseTree() leave the cache that visiting the directories one by one leaves |
| EventBuffer.HandleNext | The-Linux-Programming-Interface/tlpi-dist/inotify/inotify_dtree.c:734-1032 | from the bytes to the rescan: the outcome, the returned length and the cache are those of the handler on the events in view |
| EventBuffer.ShuffleDown | The-Linux-Programming-Interface/tlpi-dist/inotify/inotify_dtree.c:1107-1110 | copying in place moves the remaining bytes to the front unchanged, and touches nothing behind them |
| EventBuffer.ReadMore | The-Linux-Programming-Interface/tlpi-dist/inotify/inotify_dtree.c:1103-1149 | exactly one whole event is carried over, followed by what the second read finds, and the loop's view stays right when the read is interrupted |
| EventBuffer.ProcessInotifyEvents | The-Linux-Programming-Interface/tlpi-dist/inotify/inotify_dtree.c:1046-1152 | the loop on the bytes ends and leaves the cache, the roots, the log and the put-off events of the loop without the bytes |
| EventBuffer.ServeBuffer | The-Linux-Programming-Interface/tlpi-dist/inotify/inotify_dtree.c:1079-1151 | the same for the loop over what one read has brought, with its second reads |
| EventBuffer.DrainEvents | The-Linux-Programming-Interface/tlpi-dist/inotify/inotify_dtree.c:1040-1152 | so does the program on a whole stream, call after call |
| EventBuffer.DrainsAsIfAllInView | The-Linux-Programming-Interface/tlpi-dist/inotify/inotify_dtree.c:1040-1152 | on the bytes, too: without a rebuild and with pairs in time the final cache is that of handling events and pairs one by one, however the reads fall |
| RawEvents.EventRoundTrip | The-Linux-Programming-Interface/tlpi-dist/inotify/inotify_dtree.c:734-741 | every event whose fields and name fit has bytes, which are read back as that event |
| RawEvents.FlagsRoundTrip | The-Linux-Programming-Interface/tlpi-dist/inotify/inotify_dtree.c:744-963 | the mask made from a set of flags tests for exactly those flags |
| RawEvents.SampleRecord | The-Linux-Programming-Interface/tlpi-dist/inotify/inotify_dtree.c:734-741 | the bytes of one event as the kernel lays them out are read as that event |
| DtreeBytes.StoryGoesOn | The-Linux-Programming-Interface/tlpi-dist/inotify/inotify_dtree.c:734-1032 | each step of the system keeps the kernel's answers so far, replayed action by action, in agreement with the state |
| DtreeBytes.SoundHeadCase | The-Linux-Programming-Interface/tlpi-dist/inotify/inotify_dtree.c:900-963 | in every run without an overflow a pair is handled together, any other event alone, and a lone "moved from" is handled when an event about a removed watch follows |
| DtreeBytes.EveryRunHasBytes | The-Linux-Programming-Interface/tlpi-dist/inotify/inotify_dtree.c:1046-1152 | every run of the system without an overflow has such a story, and its events have bytes if they fit |
| DtreeBytes.BytesFollowTrees | The-Linux-Programming-Interface/tlpi-dist/inotify/inotify_dtree.c:1046-1152 | for every such run that ends idle: fed with the bytes of its events, however the reads cut them, and with the watches and directories met there, the loop on the buffer ends with the cache of that run, which agrees with the directory trees |
| DtreeBytes.WatchTrees | The-Linux-Programming-Interface/tlpi-dist/inotify/inotify_dtree.c:1398-1422 | the program from its first scan on, on a cache object and bytes, leaves that cache |
| DtreeRebuild.LastEpoch | The-Linux-Programming-Interface/tlpi-dist/inotify/inotify_dtree.c:687-725 | in every run that ends at rest, however often the queue overflowed, the part since the last rebuild is a run without an overflow |
| DtreeRebuild.BytesFollowTreesAgain | The-Linux-Programming-Interface/tlpi-dist/inotify/inotify_dtree.c:965-983 | whatever the loop on bytes has read before: from a rebuild on, fed with what such a part of a run tells it, it ends with the cache of that run, in agreement with its trees |
| NamespaceForest.AddKeeps | The-Linux-Programming-Interface/tlpi-dist/namespaces/namespaces_of.go:250-269 | the recursive insertion keeps the forest although namespaces on the way up are recorded before they are linked |
| NamespaceForest.AddToListKeeps | The-Linux-Programming-Interface/tlpi-dist/namespaces/namespaces_of.go:275-379 | the same for a namespace not recorded yet: topmost, owned invisibly, or with a parent |
| NamespaceForest.AddRecords | The-Linux-Programming-Interface/tlpi-dist/namespaces/namespaces_of.go:226-269 | an insertion records exactly the namespace and everything above it, and books the PID with that namespace only |
| NamespaceForest.BuiltForest | The-Linux-Programming-Interface/tlpi-dist/namespaces/namespaces_of.go:250-379 | after any insertions the list is closed under parents, and every namespace with a parent or owner occurs exactly once, in that entry's children only |
| NamespaceForest.BuiltContents | The-Linux-Programming-Interface/tlpi-dist/namespaces/namespaces_of.go:397-456 | the list records exactly the requested namespaces and everything above them, each with the requested PIDs in order |
| NamespaceOrder.ChildrenInOrder | The-Linux-Programming-Interface/tlpi-dist/namespaces/namespaces_of.go:357-375 | the children of every entry are listed in the order in which the requests first led to them |
| NamespaceForest.NamespaceInfo.AddNamespace | The-Linux-Programming-Interface/tlpi-dist/namespaces/namespaces_of.go:250-269 | the method that updates the map has the effect of Add |
| NamespaceForest.NamespaceInfo.AddNamespaceToList | The-Linux-Programming-Interface/tlpi-dist/namespaces/namespaces_of.go:275-379 | the method that updates the map has the effect of AddToList |
| NamespaceDisplay.WalkVisits | The-Linux-Programming-Interface/tlpi-dist/namespaces/namespaces_of.go:713-730 | the display of a subtree ends and visits exactly the namespaces at or below its root, each once |
| NamespaceDisplay.WalkLevels | The-Linux-Programming-Interface/tlpi-dist/namespaces/namespaces_of.go:725-729 | each namespace is shown at the level of its distance below the starting entry |
| NamespaceOrder.WalkOrder | The-Linux-Programming-Interface/tlpi-dist/namespaces/namespaces_of.go:713-730 | in the display of a subtree one namespace comes before another iff it lies above it, or they are at or below two children of one entry listed in that order |
| NamespaceOrder.ParentsFirst | The-Linux-Programming-Interface/tlpi-dist/namespaces/namespaces_of.go:719-729 | every namespace but the first comes after the entry it is listed under, one level deeper |
| NamespaceOrder.DisplayOrder | The-Linux-Programming-Interface/tlpi-dist/namespaces/namespaces_of.go:782-795 | in the whole display everything stands at the level of its distance from the top, first what is below the root, then what is below the special entry, each part in that order |
| NamespaceOrder.ShownTwice | The-Linux-Programming-Interface/tlpi-dist/namespaces/namespaces_of.go:782-795 | without a topmost namespace the two halves of the display are the same |
| NamespaceDisplay.DisplayIsExact | The-Linux-Programming-Interface/tlpi-dist/namespaces/namespaces_of.go:782-795 | the display visits every recorded namespace exactly once iff exactly one topmost namespace was recorded; with none it shows everything twice, with more all topmost ones but one are missing |
| NamespaceDisplay.BuiltDisplay | The-Linux-Programming-Interface/tlpi-dist/namespaces/namespaces_of.go:1039-1089 | the same for whatever processes were scanned |
| NamespaceDisplay.FirstOfTwoIsMissing | The-Linux-Programming-Interface/tlpi-dist/namespaces/namespaces_of.go:326-335 | two processes in unrelated topmost namespaces: the one recorded first is not shown |
| NamespaceDisplay.OwnerOutOfSightShowsTwice | The-Linux-Programming-Interface/tlpi-dist/namespaces/namespaces_of.go:337-358 | a process in a namespace whose owner is out of sight is shown twice if nothing topmost is recorded |
| NamespaceDisplay.BothKernelsExist | The-Linux-Programming-Interface/tlpi-dist/namespaces/namespaces_of.go:326-358 | kernels for both of these cases exist |
| NamespaceDisplay.DisplayTree | The-Linux-Programming-Interface/tlpi-dist/namespaces/namespaces_of.go:713-730 | the recursive method visits in the order of Walk |
| TextWrap.Wrap | The-Linux-Programming-Interface/tlpi-dist/namespaces/namespaces_of.go:642-668 | the result is the greedy lines behind the indent, separated by newlines, and empty for no words |
| TextWrap.WrapWords | The-Linux-Programming-Interface/tlpi-dist/namespaces/namespaces_of.go:650-667 | the loop that remembers only the column builds the greedy lines |
| TextWrap.GreedyIsLayout | The-Linux-Programming-Interface/tlpi-dist/namespaces/namespaces_of.go:657-665 | the lines hold the words in order, and only a one-word line exceeds the width |
| TextWrap.GreedyStaysAhead | The-Linux-Programming-Interface/tlpi-dist/namespaces/namespaces_of.go:657-665 | compared with any breaking within the width, the greedy one has fewer lines, or as many with no longer a last line |
| TextWrap.GreedyUsesFewestLines | The-Linux-Programming-Interface/tlpi-dist/namespaces/namespaces_of.go:657-665 | no way of breaking the words within the width takes fewer lines |
| TextWrap.FieldsOfRender | The-Linux-Programming-Interface/tlpi-dist/namespaces/namespaces_of.go:642-668 | splitting lines printed behind a blank indent gives back their words in order |
| TextWrap.WrapPreservesWords | The-Linux-Programming-Interface/tlpi-dist/namespaces/namespaces_of.go:637-668 | splitting the output gives back the words of the input iff the indent is blank or there are no words |
| TextWrap.WrappedLines | The-Linux-Programming-Interface/tlpi-dist/namespaces/namespaces_of.go:642-668 | of the printed text, for an indent without a newline: it has the fewest lines possible, each is the indent and then words at single blanks, and what follows the indent is within the width unless it is one word |
| ThreadCounter.PrintableValues | Operating-Systems-Three-Easy-Steps/introduction/threads.c:9-31 | the values printed over all interleavings are exactly {0}, {1, 2} or {2, ..., 2 * loops} |
| ThreadCounter.InvAlways | Operating-Systems-Three-Easy-Steps/introduction/threads.c:9-15 | bounds on counter and registers that every interleaving keeps |
| ThreadCounter.LosingPrints | Operating-Systems-Three-Easy-Steps/introduction/threads.c:9-15 | a schedule that loses all but p + q + 2 of the increments |
| ThreadCounter.CompleteRunLength | Operating-Systems-Three-Easy-Steps/introduction/threads.c:11-13 | no interleaving has more than 4 * loops moves, and it is complete iff it has exactly that many (none for negative loops) |
| Semaphore.MutualExclusion | APUE/apue-code/08/semdemo.c:156-180 | in every run, with crashes anywhere and whatever flags, at most one process holds the lock |
| Semaphore.ConservationAlways | APUE/apue-code/08/semdemo.c:54-175 | with the source's flags, after every run each process's undo adjustment is exactly what it holds, and value plus holders is conserved |
| Semaphore.ConservedIffSourceFlags | APUE/apue-code/08/semdemo.c:54-175 | value plus holders is 0 before freeing and 1 ever after, in all runs, iff freeing uses no SEM_UNDO and locking does |
| Semaphore.TokenCanBeLost | APUE/apue-code/08/semdemo.c:167-175 | for any other flags, a run after which value plus holders is off |
| Semaphore.GateOpensAfterFreeing | APUE/apue-code/08/semdemo.c:76-117 | a process past initsem() got there after the creator's increment of that semaphore |
| Semaphore.BlockedOnlyByHolder | APUE/apue-code/08/semdemo.c:156-161 | a lock blocks iff some process holds it |
| Semaphore.AllGoneLeavesItFree | APUE/apue-code/08/semdemo.c:167-175 | once all processes have gone, however they went, a freed semaphore is free again |
| SemaphoreProgress.GetsInIff | APUE/apue-code/08/semdemo.c:76-117 | with a freed semaphore, a process still in initsem() gets past it by its own calls, to that semaphore, iff it does not wait for one that was removed |
| SemaphoreProgress.OutdatedHappens | APUE/apue-code/08/semdemo.c:66-96 | a run after which a process waits for a semaphore that was removed, although another one is free |
| SemaphoreProgress.GoesAllTheWay | APUE/apue-code/08/semdemo.c:76-175 | if nobody holds the lock it then gets it and gives it back |
| SemaphoreProgress.LocksAndUnlocks | APUE/apue-code/08/semdemo.c:156-180 | a process at the lock of a freed semaphore that nobody holds locks it, unlocks it and leaves everything as it was |
| SemaphoreProgress.CreatorGetsIn | APUE/apue-code/08/semdemo.c:52-74 | where there is no semaphore a process makes one and is past initsem() two calls later, or takes it away if freeing fails |
| SemaphoreProgress.GivesUpIff | APUE/apue-code/08/semdemo.c:92-112 | a process that asks about a semaphore that is still there gives up iff it has asked MAX_RETRIES times and found it unused every time, and goes on iff it has been operated on |
| SemaphoreProgress.GivesUpWithout | APUE/apue-code/08/semdemo.c:80-96 | a process that finds the semaphore gone gives up at that call and changes nothing |
| SemaphoreProgress.LockedOutIff | APUE/apue-code/08/semdemo.c:54-104 | while the semaphore is there but not freed, somebody can get past initsem() iff the process that made it is still in there |
| Knapsack.RecIsBest | acm-challenge/2.3/backpack.cpp:18-32 | rec(i, j) is the best value of any selection from item i on that weighs at most j |
| Knapsack.CellIsBest | acm-challenge/2.3/backpack.cpp:64-73 | a table cell is the best value of any selection of the items before i |
| Knapsack.TableIsRecursion | acm-challenge/2.3/backpack.cpp:64-77 | the last table cell equals rec(0, W), the best value of all items |
| Knapsack.SolvePureDp | acm-challenge/2.3/backpack.cpp:64-77 | the nested loops fill the table and print the best value, from a first row of zeros |
| Knapsack.RecDp | acm-challenge/2.3/backpack.cpp:41-57 | with a cell that is unset or right, the result is rec(i, j) |
| Lis.FillRow | acm-challenge/2.3/LIS.cpp:19-26 | one row makes dp[i] the longest length ending at i and lifts the result to it, except for i = 0 |
| Lis.Solve | acm-challenge/2.3/LIS.cpp:15-30 | every dp[i] is right; the result is the longest length iff the array does not have length 1, where it is 0 |
| PipeFraming.HeaderRoundTrip | The-Linux-Programming-Interface/tlpi-dist/altio/select_mq.c:45-76 | the header read back from a record is the message's, and its body follows |
| PipeFraming.EveryRunIsFramed | The-Linux-Programming-Interface/tlpi-dist/altio/select_mq.c:55-155 | in every interleaving the parent delivers an unbroken prefix of a merge of the children's messages, and no read comes up short |
| PipeFraming.DrainedDeliversAll | The-Linux-Programming-Interface/tlpi-dist/altio/select_mq.c:137-153 | when everything is written and read, every child's messages have all been delivered in order |
| PipeFraming.FatalIffEmptyBody | The-Linux-Programming-Interface/tlpi-dist/altio/select_mq.c:145-149 | at the second read of a record the parent gives up iff the body is empty |
| PipeFraming.NeverFatalWithoutEmptyBodies | The-Linux-Programming-Interface/tlpi-dist/altio/select_mq.c:145-149 | in no run of queues without an empty body does the parent give up |
| PipeFraming.GivesUpIffEmptyBody | The-Linux-Programming-Interface/tlpi-dist/altio/select_mq.c:137-153 | for given queues: some run makes the parent take a message for EOF iff some queue holds an empty body |
| PipeFraming.DrainsIffNoEmptyBody | The-Linux-Programming-Interface/tlpi-dist/altio/select_mq.c:137-153 | for given queues: some run delivers everything iff no queue holds an empty body |
| SinglyLinkedList.List.AddFirst | data-structures-and-algorithms-in-java/list/SinglyLinkedList.java:32-36 | the contents gain the element at the front; the chain stays acyclic with tail and size right |
| SinglyLinkedList.List.AddLast | data-structures-and-algorithms-in-java/list/SinglyLinkedList.java:37-43 | the contents gain the element at the end |
| SinglyLinkedList.List.RemoveFirst | data-structures-and-algorithms-in-java/list/SinglyLinkedList.java:45-53 | the first element is returned and removed, or nothing for an empty list |
| SinglyLinkedList.List.Size | data-structures-and-algorithms-in-java/list/SinglyLinkedList.java:20 | the number of elements |
| SinglyLinkedList.List.First | data-structures-and-algorithms-in-java/list/SinglyLinkedList.java:22-25 | the first element, or nothing |
| SinglyLinkedList.List.Last | data-structures-and-algorithms-in-java/list/SinglyLinkedList.java:27-30 | the last element, or nothing |
| SinglyLinkedList.Session | data-structures-and-algorithms-in-java/list/SinglyLinkedList.java:16-53 | any sequence of operations answers, and leaves contents, as on a mathematical sequence |

## Left out

- SimpleMachine.Machine.Run: observes any given number of turns, because a method must terminate; runs that never end are the subject of InterpretersAgree and LoopHaltsIffPositive.
- SimpleNil.RubyAgreesWithMachine: its conditions on the program are sufficient; the exact condition, AgreeIffNotPast, is about the run.
- DtreeProtocol.CacheFollowsTrees: the condition on renames of monitored directories is sufficient in general and exact, for renames within the trees, in the situation of DtreeRace.RaceIsHarmlessIff; two renames of monitored directories are never pending at once, and nothing else changes while one out of the trees is pending; renames over an existing directory, overlapping roots, removal or renaming of a root, and unmounts do not occur in a run, though EventHandler.Handle has the branches for the last three.
- EventBuffer.ProcessInotifyEvents: assumes that a read size given with `-b` has room for an event and is no larger than the buffer, which inotify_dtree.c does not check (lines 1064 and 1373); within that range it only makes reads smaller.
- DtreeRebuild.BytesFollowTreesAgain: of the events read before the rebuild it says only that they led to one; they are not derived from the run before.
- TextWrap.WrappedLines: speaks of an indent without a newline; the program's own are blanks.
- Truncation of pathnames at PATH_MAX, which inotify_dtree.c lists as a known limitation.
- The cache consistency diagnosis, logging, option parsing and interactive commands of inotify_dtree.c.
- Errors of system calls that make a program exit at once.
- Colours, printing, PID sorting, /proc parsing, UID and GID maps and creator UIDs in namespaces_of.go; strings.Fields is modelled for ASCII white space, with characters standing for bytes.
- Overflow of the shared int counter beyond 2 * loops >= 2^31 in threads.c, which the C standard leaves undefined.
- Removal of the semaphore by someone other than its creator in semdemo.c.
- Terminal input, fork() and the pipe's capacity in select_mq.c.
- solve_dp() in backpack.cpp, which calls the plain recursion.
- The other directories of the repository: system-call demonstrations, reading notes, and stubs.
