# Proofs about the software factory

The factory turns a plan into merged code. A Planner writes a task graph into a ledger of beads; Workers
claim ready tasks under a lease and submit branches; a Verifier runs each task's commands on the submitted
head; an Integrator rebases, checks, fast-forwards and pushes; a Steward reaps expired leases, enforces
budgets, repairs lost merge beads and closes finished epics. All of them act on a task through one total
(state, event) table, and all of them may die between any two writes.

This project models that machinery in Dafny and proves what it promises over every input and every run.

    dafny verify dfyconfig.toml

## Where things are

| file | what it models |
|---|---|
| `Time`, `Budget`, `Lease`, `Ids`, `Text`, `Sequences` | saturating 64- and 32-bit quantities, budgets, leases, commits as histories, lines and trimming, distinctness |
| `Task`, `TaskTable`, `TaskRuns` | the state machine, what it does event by event, and every run of one task |
| `Ledger`, `Transition`, `Frames`, `CompletedCalls` | the bead store as a value and as an object that dies after a given number of writes; load, decide, persist, run effects; what that leaves alone and what it leaves behind |
| `Protocol`, `Safety`, `ProtocolRuns`, `ApplyRuns` | all roles interleaved at every write, with crashes; invariants and whole-run theorems; the sequential workflow as one schedule of them |
| `Worker`, `Verifier`, `VerifyPass`, `Repo`, `Integrator`, `Steward`, `Rounds`, `OneRound`, `SweepLaws` | the roles' own code, and what passes and rounds of it achieve |
| `RoleRuns`, `FactoryRuns` | the roles' own code as runs of the protocol, and what the factory keeps over any sequence of calls |
| `Plan`, `Toposort`, `Validate`, `Planner`, `PlannedRuns`, `Json`, `Extract`, `ScanLaws` | plans: parsing, ordering, writing to the ledger, finding the JSON in a reply |
| `Metrics`, `Histories`, `CriticalPath`, `Concurrency` | the event log folded into histories, the memoized longest path, the sweep line |
| `Notes`, `NotesLaws`, `CarriageReturns`, `LogTail` | verify notes printed and parsed back, and following the event log |

A role's code is a method over the store and repository objects whose contract equates the new state with a
function of the old one (`Transition.Applied`, `Steward.Swept`, `Integrator.Integrated`, `Worker.Worked`, …);
lemmas then say what that function achieves. Only accepted events are logged, and counters are specified from
that log alone.

## What the protocol rests on

* Loading a task, deciding and persisting its new metadata is one atomic step: the store has no
  compare-and-swap (`crates/app/src/ports.rs:38-44`). Every later write of the same call is a separate step and
  may be lost in a crash.
* There is one Verifier and one Integrator. `VerifyPassed` and `Merged` carry no head
  (`crates/domain/src/task.rs:85`, `:93`), so two guarantees need something of the schedule, and over whole runs
  they hold exactly when they get it. Main moves only for open work if and only if nobody cancels, escalates or
  closes the task being landed between the Integrator's look at it and the fast-forward
  (`ProtocolRuns.MainMovesOnlyForOpenWorkIff`). Every mergeable head passed its commands if and only if every
  passing verdict meets the head that was checked, or one that passed in another run
  (`ProtocolRuns.EveryMergeableHeadWasVerifiedIff`), as it does where no operator retry falls into a check. A run
  without each is exhibited in which the guarantee fails.
* A plan's `needs` hold a task back exactly when claims that are won find them landed
  (`ProtocolRuns.ClaimsWaitForBlockersIff`), as they do where no task bead is closed by hand.
* When the roles run one call after another and operators act between calls, none of these conditions is needed:
  they are proved of the roles' steps (`FactoryRuns`).
* A verify bead stores at least one command (`crates/domain/src/meta.rs:167`). That a planned task's head passed
  the commands of its plan entry assumes that nobody rewrites the verify data of the plan's tasks.
* The verify bead a task names is no task itself, as the Planner writes it (`crates/app/src/planner.rs:193-216`).
* An attempts budget of at least 1 (a task with budget 0 is over it before its first attempt).

## Where code and documentation disagree

* `crates/domain/src/lease.rs:30-31` says a renewal runs from now, so heartbeats accumulate no credit. The caller
  recomputes the span as `expires - claimed_at` (`crates/domain/src/task.rs:189`), so they do.
  `TaskRuns.LeaseClosedForm` gives the expiry the code computes, `TaskRuns.RenewalRunsFromNowIff` exactly when
  the documented one is met, `TaskRuns.HeartbeatsAccumulateCredit` a run in which it is not.
* Parsing two notes joined by a newline is parsing each exactly when the first does not end in a carriage return
  in a line kept as it is (`CarriageReturns.AppendedNotesIff`); `NotesLaws.AppendedNotes` is the law for all inputs,
  `NotesLaws.CarriageReturnIsLost` an input on which the simpler law fails.
* `extract_json_object` calls its result the first balanced object in the text. Quotes in the prose count as
  string delimiters too (`Extract.LoneQuoteHidesTheObject`). An object is tried at its own place exactly when the
  text in front of it leaves the scan outside strings and braces (`Extract.ObjectIsTriedIff`), and is what is
  found there exactly when, in addition, no earlier candidate parses (`Extract.ObjectIsReturnedIff`).
* `crates/app/src/metrics.rs:285` promises the longest chain. The depth guard cuts after 66 tasks
  (`CriticalPath.NoChainWeighsMore`), and no later bound would do (`CriticalPath.GuardIsSharp`).
* `crates/app/src/steward.rs:144-145` says the gap a lost merge bead leaves closes on the next sweep. A merge bead
  left from another landing of the task hides the gap (`Rounds.OneRoundIsNotEnough`). One round of sweep and pass
  clears every mergeable task exactly when each of them has a matching merge bead or none at all
  (`OneRound.OneRoundSufficesIff`); two rounds always do (`Rounds.TwoRoundsLandOrReopenEverything`).

## Model

| member | source | states |
|---|---|---|
| TaskRuns.ExactAccounting | crates/domain/src/task.rs:200-253 | after any run from a fresh task every counter is the saturated count or sum, over the accepted events since the last operator retry, of what that event kind is charged: attempts, expiries, tokens, wall clock, the streak of blocked releases |
| TaskRuns.UnchargedEvents | crates/domain/src/task.rs:270-281 | provider stops, escalations, cancels, heartbeats, claims, merges and passed or blocked verifications move no counter |
| TaskTable.AcceptedIff | crates/domain/src/task.rs:160-512 | each of the fourteen events is accepted exactly in the states, for the holder and at the times given |
| TaskTable.RefusedBecause | crates/domain/src/task.rs:515-545 | why it is refused: the holder of another agent's lease is named, a late heartbeat names the expiry, anything else is not allowed in the state |
| TaskTable.AcceptedLeadsTo | crates/domain/src/task.rs:160-512 | the state each accepted event leads to, with the first limit broken where it is an incident of the budget; names, base and budget stay |
| TaskTable.AcceptedCharges | crates/domain/src/task.rs:200-294 | every counter after every accepted event |
| TaskTable.AcceptedAsks | crates/domain/src/task.rs:160-512 | every effect of every accepted event, with its note, in order, and no other |
| TaskTable.CheckIff | crates/domain/src/budget.rs:84-104 | a budget is kept exactly when attempts are below and tokens and wall clock not above their limits; else the first one broken is named |
| TaskTable.OnlyTheHolderSpeaks | crates/domain/src/task.rs:181-294 | over any run every accepted heartbeat, submission, release and provider stop came from the agent of the last claim, with only that agent's heartbeats in between |
| TaskTable.LateSubmissionIsRefused | crates/domain/src/task.rs:531-545 | a submission after the lease expired and went to another agent is refused by name: a run |
| TaskRuns.ReachableInLimits | crates/domain/src/task.rs:225-294 | with an attempts budget A >= 1 every reachable active task has attempts < A, expiries < 3, blocked releases < 2, and tokens within budget while open or leased; attempts <= A in every state |
| TaskRuns.AttemptsAreExact | crates/domain/src/counts.rs:25-37 | so no counter saturates: attempts are exactly the failed verifications, failed merges and releases |
| TaskRuns.PotentialStep | crates/domain/src/task.rs:160-429 | every accepted event but heartbeats, provider stops and retries uses up potential; each of those three moves it by a fixed amount |
| TaskRuns.BoundedProgress | crates/domain/src/task.rs:129-134 | at most 4A + 5 events other than heartbeats are accepted per start or retry, plus 2 per provider stop |
| TaskRuns.BoundIsReached | crates/domain/src/task.rs:129-134 | for every A and every number of stops some run reaches the bound |
| TaskRuns.MergedAtMostOnce | crates/domain/src/task.rs:296-309 | a run accepts `Merged` at most once, and exactly when the task ends closed |
| TaskRuns.TerminalIsFinal | crates/domain/src/task.rs:496-512 | nothing is ever accepted in `Closed` or `Canceled` |
| TaskRuns.OpenedBeadsMirrorTheState | crates/domain/src/task.rs:255-268 | merge and incident beads are opened exactly on the way to `Mergeable` and `Incident`, with the stored branch, head and reason |
| TaskRuns.ClosedBeadsMirrorTheState | crates/domain/src/task.rs:296-309 | the task and its verify bead are closed exactly on landing, the merge beads exactly on cancel; verdicts and releases leave their note first |
| TaskRuns.LeaseClosedForm | crates/domain/src/task.rs:181-198 | a lease expires at claim + ttl + the sum of the heartbeats' distances from the claim, saturated; holder and claim time are the claim's |
| TaskRuns.LiveWorkerKeepsItsLease | crates/domain/src/lease.rs:17-38 | a worker beating within ttl of its last beat is never refused and never reaped |
| TaskRuns.RenewalRunsFromNowIff | crates/domain/src/lease.rs:30-38 | the documented expiry, now + ttl, holds exactly when every earlier beat came in the second of the claim |
| TaskRuns.HeartbeatsAccumulateCredit | crates/domain/src/task.rs:181-198 | claimed at 0 for 10 seconds with beats at 5 and 6 a lease runs to 21, not to 16, and reaping is refused until then |
| Time.SaturatedFold | crates/domain/src/counts.rs:32-38 | saturating additions one after the other give the exact sum, saturated once |
| Rounds.DecisionsStand | crates/app/src/steward.rs:207-228 | a task the Steward would reap or stop at one time it would reap or stop at any later time |
| Ledger.ListingIsExact | crates/app/src/testing.rs:185-198 | a listing names exactly the beads of the kind that are neither closed nor deferred, each once |
| Ledger.BeadStore.ListActive | crates/app/src/testing.rs:185-198 | the listed beads with their contents, in order |
| Ledger.BeadStore.Ready | crates/app/src/ports.rs:25-29 | the active beads all of whose blockers are closed |
| Ledger.BeadStore.Do | crates/app/src/testing_flaky.rs:33-48 | one write, or `Unavailable` once the allowed writes are used up, or `NotFound`; the ledger changes by that write only |
| Ledger.BeadStore.TryClaim | crates/app/src/testing.rs:200-210 | won exactly when the bead was not in progress; it is in progress afterwards and nothing else changed |
| Ledger.BeadStore.Show | crates/app/src/ports.rs:21-23 | the bead, or nothing for an unknown id |
| Ledger.BeadStore.Children | crates/app/src/testing.rs:397-407 | a bead's direct children whatever their status |
| Ledger.ChildrenAreExact | crates/app/src/testing.rs:397-407 | they are exactly the beads that name it as parent, each once |
| Ledger.PerformAppend | crates/app/src/testing_flaky.rs:33-48 | writes in sequence stop at the first failure, however they are grouped |
| Transition.LoadTask | crates/app/src/transition.rs:36-45 | the task of a task bead with metadata; otherwise not found, not a task or no metadata, exactly when each is so |
| Transition.ApplyEvent | crates/app/src/transition.rs:56-75 | persist first, release the claim when the task is open again, then effects in order; stops at the first failed write, the ledger being exactly what the writes before it made |
| Transition.RunEffect | crates/app/src/transition.rs:77-111 | each effect's writes, no others |
| Transition.CloseMerges | crates/app/src/transition.rs:101-109 | closes exactly the active merge beads that name the task; cut off, the first of them in listing order; done exactly when the writes suffice |
| Frames.AppliedFrame | crates/app/src/transition.rs:56-75 | wherever the store dies, one call of any event changes no bead but the task's, on a merge its verify bead, on a cancel the active merge beads that name it; no other metadata; creates only the one kind of bead its event calls for |
| Frames.AppliedIsAllOrNothing | crates/app/src/transition.rs:47-66 | wherever the store dies, and whatever the event, the task is stored as it was or as the event leaves it, the latter as soon as anything was written |
| CompletedCalls.CompletesIff | crates/app/src/transition.rs:56-111 | a call completes exactly when it may be made and the store outlives its writes; then the ledger is, bead by bead and field by field, the old one with the task's new metadata, its claim released if it is open again, its note appended, the landed task and its verify bead or the canceled task's merge beads closed, and the one merge or incident bead opened with its data |
| CompletedCalls.LandedBlockersMakeReady | crates/app/src/transition.rs:99-100 | after any sequence of calls, each cut off anywhere, an active task all of whose blockers were landed by completed calls is ready |
| Frames.CancelClosesItsMergeBeads | crates/app/src/transition.rs:101-109 | a cancel cut off anywhere has closed the first so many of the active merge beads that name the task, in listing order, and changed no other bead but the task's; completed, no active merge bead names the task |
| Frames.MergedOnlyCloses | crates/app/src/transition.rs:99-100 | recording a merge reopens nothing |
| ApplyRuns.ApplyEventIsARun | crates/app/src/transition.rs:56-75 | the workflow with what its caller writes after it, cut off anywhere, is a schedule of the interleaved protocol: fire, then drain some of the waiting writes |
| Safety.CoreStep | crates/app/src/transition.rs:47-75 | every step of every role keeps the ledger's core invariant and only grows it |
| Safety.StepChanges | crates/app/src/transition.rs:56-75 | one step changes task metadata only by the one event it fires, as the state machine says |
| Safety.StepCloses | crates/app/src/transition.rs:99 | a task bead is closed only by hand or after its task was stored as closed |
| ProtocolRuns.MainMovesOnlyForOpenWork | crates/app/src/integrator.rs:189-222 | in every interleaving with crashes main is fast-forwarded for a task only while it is stored as mergeable with the merge bead's branch and head, its bead is open, nothing was merged for it, and it was never closed or canceled, provided nobody cancels, escalates or closes the task before the fast-forward |
| ProtocolRuns.MainMovesOnlyForOpenWorkIff | crates/app/src/integrator.rs:189-222 | over every run: main can move only for open work at every moment exactly when no cancel, escalation or hand close of the task being landed falls between the look at it and the fast-forward |
| ProtocolRuns.OnlyTheIntegratorMovesMain | crates/app/src/integrator.rs:271-359 | main changes only by the sync, the fast-forward or the rollback of the landing in progress |
| ProtocolRuns.WhatMayHappen | crates/app/src/transition.rs:47-55 | a crash loses what a call still had to write and nothing else; a check or a landing given up changes neither the ledger nor main; a rollback restores main unless it was moved on |
| ProtocolRuns.WaitingChangesNothing | crates/app/src/worker.rs:102-105 | who loses the race for the ledger's claim, or did not win it, changes nothing; neither does a second check or landing beside the one in progress, nor a landing that ends other than it stands |
| ProtocolRuns.MergedOnceAndTerminalForever | crates/app/src/transition.rs:56-75 | `Merged` is persisted at most once per task over any run; a task stored as closed or canceled stays so |
| ProtocolRuns.EveryMergeableHeadWasVerified | crates/app/src/verifier.rs:130-168 | in every run whose passes are sound the head of every mergeable task, and of every landing, either was mergeable when the run began or is one on which every prepare command and then every command listed off a verify bead naming the task, at least one, ran in order and succeeded |
| ProtocolRuns.EveryMergeableHeadWasVerifiedIff | crates/app/src/verifier.rs:149-168 | over every run: that holds at every moment exactly when every passing verdict meets the head that was checked, or one that passed in another run or was mergeable at the start |
| ProtocolRuns.ChecksLeftAloneAreSound | crates/domain/src/task.rs:85 | where no operator retry of the task under verification finds it an incident, every passing verdict meets the head that was checked |
| ProtocolRuns.ProofsWereOrdered | crates/app/src/verifier.rs:47-54 | every recorded verify run ran the commands the pass had listed off an active verify bead naming the task, prepare steps first, on the head the task had submitted when the run started, whatever was written to the bead in between |
| ProtocolRuns.ClaimsWaitForBlockers | crates/app/src/worker.rs:310-316 | when a worker has claimed a task, every blocker that is a task is stored as closed |
| ProtocolRuns.ClaimsWaitForBlockersIff | crates/app/src/worker.rs:310-316 | over every run: claimed tasks have all blockers that are tasks stored as closed at every moment exactly when every claim that is won finds them so |
| ProtocolRuns.LandingStaysOpenIff | crates/domain/src/task.rs:93 | one step on: a landing's task stays open for it exactly when the step does not cancel, escalate or close that task |
| ProtocolRuns.CheckedHeadStandsIff | crates/domain/src/task.rs:85 | one step on: a verify run's head stands exactly when the step is no operator retry that finds that task an incident |
| ProtocolRuns.CancelInsideALandingStillLands | crates/app/src/integrator.rs:189-222 | without the assumption main can move for a canceled task: a run |
| ProtocolRuns.RetryInsideACheckPassesAnotherHead | crates/app/src/verifier.rs:130-168 | without the assumption a head nothing ran on can become mergeable: a run |
| Worker.Pick | crates/app/src/worker.rs:310-316 | the first claimable task, or none is |
| Worker.RunWithHeartbeats | crates/app/src/worker.rs:333-383 | the task takes the beats up to the first that fails; the session's outcome counts only if none did |
| Worker.WorkOnce | crates/app/src/worker.rs:90-277 | the ledger ends exactly as a claim, the heartbeats up to the first that fails, the one ending and its note leave it, wherever the store dies, and no other task changed; a provider stop, a head that is unchanged and not resumed or a blocked note, and any other head lead to a stop, a release and a submission, each with the holder, the time at the end, the tokens and the note it must have, and the task is charged the session's length, its tokens, an attempt or nothing accordingly; it ends in one of these three ways whenever nothing outside the lease goes wrong |
| Worker.WorkOnceIsARun | crates/app/src/worker.rs:90-277 | whatever a session does to the ledger, cut off anywhere, worker steps of the protocol do |
| Worker.HealthySessionCompletes | crates/app/src/worker.rs:90-277 | a session on a claimable task whose beats are in time, whose worktree and harness answer and whose store outlives its writes runs to its end: neither the claim nor a beat nor the ending is refused |
| Worker.StoppedSessionIsUncharged | crates/app/src/worker.rs:176-201 | a session the provider cut off leaves the task exactly as it was before the claim |
| Worker.BeatsInTimeKeepTheLease | crates/app/src/worker.rs:345-366 | beats less than ttl apart are all accepted and the lease runs ttl beyond the last |
| RoleRuns.VerifyOneIsARun | crates/app/src/verifier.rs:119-168 | whatever a verification does to the ledger, cut off anywhere, a listing and a check that starts, ends with the same results and drains do |
| RoleRuns.IntegrateOneIsARun | crates/app/src/integrator.rs:178-261 | whatever the handling of one merge bead does to the ledger and to main, cut off anywhere, the steps of one landing do: its sync goes to the landing's base and only its fast-forward beyond |
| RoleRuns.SweepIsARun | crates/app/src/steward.rs:35-146 | a whole sweep, cut off anywhere, is a run of reaping, escalating, repairing and of closing beads that are no tasks |
| RoleRuns.OperatorIsARun | crates/app/src/transition.rs:56-75 | so is a cancel or retry between the calls of the roles |
| FactoryRuns.FactoryKeepsItsPromises | crates/app/src/transition.rs:56-75 | at every moment of any sequence of runs of one role each: what is being landed is an open task stored as mergeable with just that branch and head, to the end of its landing, no task is merged twice, every mergeable head passed its verify bead's commands, claimed tasks have their blockers landed |
| FactoryRuns.CallsKeepThePromises | crates/app/src/transition.rs:56-75 | any sequence of verifications, integrations, sweeps, worker sessions and operator events, each cut off after any number of writes, is a run of the protocol to the same ledger and the same main that keeps these promises at every moment |
| FactoryRuns.CallsAreRuns | crates/app/src/transition.rs:56-75 | each call is a run of its role from where the calls before it ended |
| RoleRuns.CallIsPolite | crates/domain/src/task.rs:85-93 | the steps of a call that begins with neither a landing nor a check in progress disturb neither |
| FactoryRuns.CallsFollowThePlan | crates/app/src/planner.rs:181-224 | from a plan written, completely or not, after any sequence of such calls every mergeable planned task has a head that passed the commands of its plan entry, and every claimed one has all its plan entry needs landed |
| Verifier.RunAll | crates/app/src/verifier.rs:219-235 | the results are a prefix of the list ending at the first failure, run in order on the head |
| Verifier.PassedIffEveryCommandSucceeded | crates/app/src/verifier.rs:284-290 | pass exactly when the prefix is the whole list and all succeeded; any other run ends at its only failure |
| Verifier.VerdictIsTheLastCommands | crates/app/src/verifier.rs:146-168 | a verdict passes exactly when every command exited with 0 in time; otherwise it blocks exactly when the command the run ended at failed for the rig's reasons, and fails when not, with the run's note |
| Verifier.EnvironmentalIff | crates/app/src/verifier.rs:257-281 | the rig's reasons: not spawned, exit 126 or 127, or one of the known phrases in the output, capitals not counting; the detail names which |
| Verifier.OutputMeans | crates/app/src/verifier.rs:284-327 | a note keeps the longest ends of both outputs that fit, under a rule, and how the command ended |
| Verifier.TailIsLongest | crates/app/src/verifier.rs:320-327 | the kept output is the longest end of the text that fits in 4000 bytes, cut between characters |
| Verifier.Summarize | crates/app/src/verifier.rs:284-318 | the verdict, and the note as the notes laws describe it |
| Verifier.VerifyOne | crates/app/src/verifier.rs:119-168 | nothing unless the task awaits a verdict; otherwise the commands run on its submitted head and the verdict on that run is applied; no verdict is applied exactly when the configuration cannot be read or the checkout cannot be made or removed |
| VerifyPass.VerifyOnce | crates/app/src/verifier.rs:37-98 | every verify bead is counted once, as it came out, and what came out is the verdict on a run of its commands; no task comes to await a verdict, and after an error-free pass none named by an active verify bead does |
| VerifyPass.VerdictJudges | crates/app/src/verifier.rs:149-168 | a verdict ends the wait of its own task and starts nobody's, wherever the store dies |
| Repo.Repository.SyncBranch | crates/app/src/ports.rs:260-267 | fast-forwards only when strictly behind, moves nothing when diverged |
| Repo.Repository.Rebase | crates/app/src/ports.rs:221-226 | a rebased head descends from the integration branch |
| Repo.Repository.FastForward | crates/app/src/ports.rs:228-232 | moves the branch only to a descendant |
| Repo.Repository.Push | crates/app/src/ports.rs:269-273 | publishes the local tip or leaves the remote to others |
| Repo.Repository.Rollback | crates/app/src/ports.rs:253-258 | compare-and-swap back |
| Integrator.Land | crates/app/src/integrator.rs:271-359 | success: all checks passed on the rebased head, main and the remote are that head; any other end publishes nothing and leaves main where the sync left it, unless push and rollback both failed, where main is left at the checked head and a later landing keeps and may publish that lead; each kind of end comes from a conflict, a divergence, a failed or unspawned check, or trouble of the repository, and from nothing else |
| Integrator.Publish | crates/app/src/integrator.rs:331-357 | the fast-forward and push saga with its compensation |
| Integrator.RunChecks | crates/app/src/integrator.rs:307-329 | the checks ran on the head in order, and all passed or the last one run failed |
| Integrator.IntegrateOne | crates/app/src/integrator.rs:178-261 | stale beads are closed, a landing is recorded then the bead closed, infrastructure trouble changes nothing in the ledger; main and the remote move only in a landing, and are left as its own end says whether or not the ledger hears of it: at the checked head when it landed, else unpublished and at the sync's base or stranded; it fails only where the checkout, the landing or the removal did |
| Integrator.IntegrateOnce | crates/app/src/integrator.rs:50-107 | the pass over the merge beads listed at its start, whose effect the rounds laws describe |
| Integrator.PassCountsEachBead | crates/app/src/integrator.rs:65-106 | every listed merge bead is counted once |
| Integrator.OneDoneCounts | crates/app/src/integrator.rs:65-106 | and in the counter of what became of it: landed, failed, skipped or error |
| Rounds.PassClosesMergeBeads | crates/app/src/integrator.rs:189-258 | an error-free pass closes every active merge bead that names a task, makes nothing mergeable, and ends the wait of every task a bead matched |
| Rounds.AppliedLands | crates/app/src/integrator.rs:224-253 | recording a landing or a rejection takes the task out of `Mergeable` |
| Steward.SweepTasks | crates/app/src/steward.rs:48-80 | the sweep over the tasks, one decision each |
| Steward.RepairMergeBeads | crates/app/src/steward.rs:148-190 | a merge bead for every listed mergeable task without one |
| Steward.SweepEpic | crates/app/src/steward.rs:262-283 | closes the epic after its context beads when its work is done |
| Steward.Sweep | crates/app/src/steward.rs:35-146 | tasks, then merge beads, then epics |
| Rounds.DecideIff | crates/app/src/steward.rs:207-228 | a task is let be exactly when it is not leased, or its lease is not over and the session so far is within every limit; reaped exactly when the lease is over; else stopped for the first limit broken |
| Rounds.TaskSweptCounts | crates/app/src/steward.rs:48-80 | each reaping and stop that was carried out is counted as such, a failed one as an error |
| Rounds.RepairAndEpicCounts | crates/app/src/steward.rs:83-130 | each merge bead opened and each epic closed is counted as such |
| Rounds.DecisionsAreAccepted | crates/app/src/steward.rs:207-245 | every decision is an event the task accepts: an expiry at that time, or an incident of the broken limit |
| Rounds.TasksSweptFacts | crates/app/src/steward.rs:48-80 | each listed task ends as its own decision says and nothing else changes but new incident beads |
| Rounds.RepairedFacts | crates/app/src/steward.rs:148-190 | after an error-free repair every active mergeable task has an active merge bead; one that had none has it for its stored branch and head; nothing else changed |
| Rounds.EpicClosesWithItsChildren | crates/app/src/steward.rs:262-283 | an epic closes exactly when it has a child that is neither reference nor contract and all of those are closed, and then no child is left open |
| SweepLaws.SweepClosesFinishedEpics | crates/app/src/steward.rs:82-130 | a sweep without errors closes exactly the active epics that have work, all of it closed before or an epic that the same sweep closed before their turn |
| SweepLaws.EveryDueTaskIsCounted | crates/app/src/steward.rs:48-80 | one bad bead does not stall the rest: whatever failed before, every task to be reaped or stopped is counted once, as that or as an error |
| SweepLaws.EveryLostMergeIsCounted | crates/app/src/steward.rs:146-190 | so is every mergeable task without a merge bead, as repaired or as an error |
| SweepLaws.EveryCompleteEpicIsCounted | crates/app/src/steward.rs:82-130 | and every epic whose work was all closed, as closed or as an error |
| Rounds.SweepSettlesEveryTask | crates/app/src/steward.rs:207-228 | after an error-free sweep every active leased task is unexpired and within budget projected to now, every active mergeable one has an active merge bead |
| Rounds.SecondSweepIsQuiet | crates/app/src/steward.rs:35-146 | another sweep at the same time, or with a clock set back, reaps, escalates and repairs nothing and leaves all work beads as they were |
| Rounds.TwoRoundsLandOrReopenEverything | crates/app/src/steward.rs:148-192 | from any ledger, a pass, a sweep and a pass without errors leave no active task mergeable |
| Rounds.OneRoundIsNotEnough | crates/app/src/steward.rs:155-163 | a ledger on which one sweep and one pass without errors do leave one |
| OneRound.OneRoundSufficesIff | crates/app/src/steward.rs:144-190 | a sweep and a pass without errors leave no active task mergeable exactly when, before them, every mergeable active task had an active merge bead for its stored branch and head or none that names it |
| OneRound.SweepMatches | crates/app/src/steward.rs:148-190 | after an error-free sweep a task waits exactly when it did before, and has a matching merge bead exactly when it had one or had none that names it |
| OneRound.PassMatches | crates/app/src/integrator.rs:189-258 | an error-free pass ends the wait of exactly the waiting tasks that have a matching merge bead |
| Validate.Validate | crates/domain/src/plan.rs:122-202 | accepts exactly the well-formed plans; the plan keeps every task with its commands and needs in their order, the tasks in the least order; a rejection is the first problem in the order of the checks, said of the raw plan |
| Validate.TasksMean | crates/domain/src/plan.rs:136-183 | the tasks parse exactly when each is fine on its own and no key repeats, and keep what they should |
| Validate.CommandsMean | crates/domain/src/plan.rs:147-161 | blank commands dropped, the rest trimmed, in the order given; otherwise the error is that of the first bad one |
| Validate.NeedsMean | crates/domain/src/plan.rs:162-170 | the needs are the trimmed keys in the order in which each is named first; otherwise the error is the first that is no key |
| Validate.FirstProblem | crates/domain/src/plan.rs:138-183 | a parse error is the first problem, in the order of the checks, of the first task that has one, given the keys before it |
| Validate.UnknownIsFirst | crates/domain/src/plan.rs:184-191 | an unknown need is the first, task by task, that names no task of the plan |
| Validate.ParsedGraph | crates/domain/src/plan.rs:184-191 | parsing keeps the needs graph, its cycles and its unknown needs |
| Toposort.TopoSort | crates/domain/src/plan.rs:235-264 | a permutation with every need first that is lexicographically least by input position, if and only if the needs are acyclic; otherwise names the first task, in input order, that depends on a cycle |
| Toposort.GreedyIsLeast | crates/domain/src/plan.rs:243-246 | always taking the first ready task gives the least order |
| Toposort.OrderedReachesNoCycle | crates/domain/src/plan.rs:235-264 | a task that could be ordered depends on no cycle |
| Toposort.StuckReachesCycle | crates/domain/src/plan.rs:247-253 | a task of a set in which nothing is ready depends on a cycle |
| Toposort.NamedTaskMayOnlyDependOnACycle | crates/domain/src/plan.rs:247-253 | the named task need not lie on a cycle |
| Planner.CreateTask | crates/app/src/planner.rs:185-216 | verify bead, task, link and wait, in this order; cut off anywhere, what was made has all its blockers |
| Planner.LookUp | crates/app/src/planner.rs:186-190 | no need is lost by the lookup |
| Planner.Materialize | crates/app/src/planner.rs:137-229 | the epic, the closed reference bead, and every task with its verify bead and exactly its needs as blockers; no bead that was there changes, whenever the store dies |
| Planner.TopologicalIsNeedsEarlier | crates/app/src/planner.rs:135-136 | what validation returns has every need before its dependents |
| PlannedRuns.ClaimedTasksHaveTheirNeeds | crates/app/src/planner.rs:181-224 | from any plan written, completely or not, over any run with crashes in which claims that are won find their blockers landed: when a task is claimed, every task its plan entry needs is stored as closed with a merged commit |
| PlannedRuns.PlannedHeadsPassedTheirCommands | crates/app/src/planner.rs:211-218 | over any run in which the plan's verify data is not rewritten and passes are sound: the head of every mergeable planned task is one on which all verify commands of its plan entry ran in order and succeeded |
| PlannedRuns.PlanningIsARun | crates/app/src/planner.rs:185-216 | what the Planner writes for one task, cut off anywhere, is the first so many of four planning steps of the protocol |
| Extract.ExtractJsonObject | crates/app/src/planner.rs:235-272 | the first candidate that parses, if any does |
| Extract.ValuePasses | crates/app/src/planner.rs:240-270 | scanning any printed JSON value returns to where it began and closes nothing on the way |
| Extract.ObjectIsFound | crates/app/src/planner.rs:235-272 | behind any text that leaves the scan outside strings and braces the object is found, whatever its strings hold and whatever follows |
| Extract.ObjectAfterPlainProseIsFound | crates/app/src/planner.rs:235-272 | so it is found behind prose without quotes and braces |
| Extract.LoneQuoteHidesTheObject | crates/app/src/planner.rs:253-254 | an odd quote in the prose hides it |
| Extract.ObjectIsTriedIff | crates/app/src/planner.rs:235-272 | a printed object is tried at its own place exactly when the text in front leaves the scan at depth zero outside strings |
| Extract.ObjectIsReturnedIff | crates/app/src/planner.rs:235-272 | an object that parses is what is found at its own place exactly when, in addition, no candidate in the text in front of it parses |
| ScanLaws.DepthOfPlain | crates/app/src/planner.rs:250-268 | outside strings the depth is the balance of the braces, with a closing brace too many leaving it at zero |
| ScanLaws.StringEnds | crates/app/src/planner.rs:241-248 | a string ends at its first quote with an even number of backslashes before it, and leaves the scan as it was |
| ScanLaws.StartIff | crates/app/src/planner.rs:252-256 | what is tried starts at the last brace opened at depth zero outside strings |
| ScanLaws.ClosesIff | crates/app/src/planner.rs:257-266 | and ends at any later closing brace outside strings that leaves the depth at zero |
| Metrics.TasksOf | crates/app/src/metrics.rs:135-219 | the fold of the whole log gives each task of the epic the history of its own records, and nothing else |
| Histories.HistoryIsExact | crates/app/src/metrics.rs:147-216 | a history has one attempt per claim, and every field of it is what the last record of the matching kind between that claim and the next says, or the default; how it ended is what the last record that ends an attempt says; the plan's part is that of the last planning |
| Histories.RecordsAreExact | crates/app/src/metrics.rs:137-143 | a task's own records are all dated ones that name it, in log order |
| Histories.UnderMeans | crates/app/src/metrics.rs:127-131 | an epic's beads are those whose name continues its own after a dot |
| Metrics.OneAttemptPerClaim | crates/app/src/metrics.rs:163-166 | a task has one attempt per claim, at its time |
| CriticalPath.Longest | crates/app/src/metrics.rs:294-317 | ends on every graph with what the guarded search gives; the weight of some chain, and of the longest complete one when no chain is beyond the guard |
| CriticalPath.CriticalPath | crates/app/src/metrics.rs:286-325 | the same for all tasks, with one memo |
| CriticalPath.NoChainWeighsMore | crates/app/src/metrics.rs:285-325 | with non-negative sessions and chains of at most 66 tasks no chain weighs more |
| CriticalPath.GuardIsSharp | crates/app/src/metrics.rs:303-306 | on a line of n one-second tasks listed from the one that needs all others the result is the line's weight exactly when n is at most 66; beyond it stays at 66 |
| CriticalPath.CriticalPathAndTaxFitInWork | crates/app/src/metrics.rs:63-69 | on an acyclic graph with non-negative sessions critical path + retry tax <= work, whatever the guard cuts |
| Concurrency.Concurrency | crates/app/src/metrics.rs:328-344 | strictly increasing times, each with the attempts begun less those over, clamped |
| Concurrency.EntriesAreChanges | crates/app/src/metrics.rs:328-344 | there is an entry for a time exactly when a session began or was over then |
| Concurrency.CountsAreLiveSessions | crates/app/src/metrics.rs:328-344 | when no submit precedes its claim the entry in force counts the live sessions at every moment, the last count is zero, the clamp never acts |
| Concurrency.AreaIsWork | crates/app/src/metrics.rs:328-344 | and the area under the curve, sessions times seconds, is the work of all tasks |
| Notes.ParseNotes | crates/console/src/detail.rs:65-141 | the segments as the notes laws describe them |
| NotesLaws.VerifyNoteReadsBack | crates/app/src/verifier.rs:284-318 | a printed verify note reads back as one block with the same verdict, commands, statuses and trimmed output |
| NotesLaws.VerifyNoteAppends | crates/app/src/testing.rs:309-318 | appended to other notes it adds exactly that block |
| NotesLaws.MarkedLineReadsBack | crates/console/src/detail.rs:77-110 | a guidance, release or operator line reads back as one segment of its kind with its text |
| NotesLaws.PlainTextReadsBack | crates/console/src/detail.rs:65-76 | text none of whose lines begins with a marker reads back as one piece, trimmed, or as nothing when blank |
| NotesLaws.AppendedNotes | crates/console/src/detail.rs:65-151 | notes joined by a newline, the later starting with a marker: the segments of the earlier, as read before a newline, then those of the later |
| NotesLaws.AppendedNotesWithoutCr | crates/console/src/detail.rs:65-151 | parsing the join is parsing both when the earlier ends in no carriage return |
| CarriageReturns.AppendedNotesIff | crates/console/src/detail.rs:65-151 | it is exactly when the earlier does not end in a carriage return in an operator's line, or in a command or status line of a verify block |
| CarriageReturns.LastLineShows | crates/console/src/detail.rs:77-139 | a carriage return ending the last line changes what is read exactly where that line is kept as it is |
| NotesLaws.CarriageReturnIsLost | crates/console/src/detail.rs:117-121 | with one it need not be |
| LogTail.ReadDeliversCompleteLines | crates/console/src/adapters.rs:31-46 | a read delivers every decodable complete line after the cursor in order, moves the cursor after the last, and leaves a partial line for later |
| LogTail.LinesAreExact | crates/console/src/adapters.rs:31-46 | the complete lines with their newlines are the log up to its last newline |
| LogTail.DecodedIsExact | crates/console/src/adapters.rs:31-46 | the records delivered are those of the non-empty lines that decode, in order |
| LogTail.BeyondTheEnd | crates/console/src/adapters.rs:31-34 | a cursor beyond the end of a log that was cut delivers nothing and comes back to the end |
| LogTail.DeliveredUpToCursor | crates/console/src/adapters.rs:31-46 | at every moment of every schedule of appends and polls what was delivered is exactly the lines up to the cursor |
| LogTail.ExactlyOnce | crates/console/src/adapters.rs:31-46 | after a poll it is what one read of the whole log gives, and the cursor is the same |

## Left out

- Integrator.IntegrateOne: the wording of a rejection; the detail is any text, and is what the task is told.
- Integrator.Land: nobody else moves the local integration branch during a landing, and worktree files are not modelled.
- ProtocolRuns.MainMovesOnlyForOpenWork: a rejected landing is one step; the sync, rebase and checks before the fast-forward are not separate steps of the interleaving, only main's possible moves are.
- Planner.Materialize: descriptions, priorities and acceptance texts of beads, and the cut of derived titles to 200 characters.
- Metrics.TasksOf: the histories form a map; that they are handed on sorted by bead id is not modelled, and no later result depends on it.
- CriticalPath.Longest: 64-bit overflow of summed session times.
- Concurrency.Concurrency: 64-bit overflow of time differences.
- Extract.ExtractJsonObject: text is a sequence of characters, not bytes; the characters looked at are ASCII, so the scan is the same. What parses is a parameter, and so is what decodes for LogTail.
- Worker.WorkOnce: the context packet's rendering, `.factory/mcp.json`, progress samples and the test-edit report; the session time limit handed to the harness; whether notes ask to resume is an input.
- Verifier.VerifyOne: where prepare commands come from, and what a checkout contains.
- Failed reads of the ledger: only writes fail, as in the repository's own crash model.
- The closing of an epic also writes its contract bead; contract rendering is not modelled.
- The Steward repairs lost merge beads only. It does not repair a task left in progress by a crash between persisting `Open` and releasing the claim, nor a landed task whose bead close was lost, so no liveness is claimed there.
- `ready` follows the ledger's documented meaning (every blocker closed); the in-memory fake ignores blockers.
- Cross-rig needs, stage statistics and concrete claims: they would only add easy members.
- HTTP, JSON-RPC, server-sent events, alerts, the `bd`, `git` and container command lines, sandboxing, the rig registry and the command line: plumbing.
- Wire shapes, id patterns, display strings and prompts.
- Model sessions, clocks and scheduling are inputs of the steps.
