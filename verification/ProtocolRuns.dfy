// The protocol's guarantees over whole runs, crashes included, and what each of them rests on.
module ProtocolRuns {
  import opened Ids
  import opened Ledger
  import opened Protocol
  import opened Safety
  import B = Budget
  import T = Task
  import Le = Lease
  import V = Verifier
  import Transition

  // ---- in any run whatever --------------------------------------------------------------------------------

  lemma {:induction false} CoreRun(start: Sys, steps: seq<Step>)
    requires Start(start)
    ensures Core(Exec(start, steps))
  {
    hide Next;
    if steps != [] {
      CoreRun(start, steps[..|steps| - 1]);
      CoreStep(Exec(start, steps[..|steps| - 1]), steps[|steps| - 1]);
    }
  }

  /** The ledger only ever grows along a run. */
  lemma {:induction false} GrowsAlong(start: Sys, steps: seq<Step>, i: nat)
    requires Start(start) && i <= |steps|
    ensures Grows(Exec(start, steps[..i]).store, Exec(start, steps).store)
    decreases |steps|
  {
    hide Next;
    if i == |steps| {
      assert steps[..i] == steps;
      CoreRun(start, steps);
    } else {
      var n := |steps| - 1;
      assert steps[..n][..i] == steps[..i];
      GrowsAlong(start, steps[..n], i);
      CoreRun(start, steps[..n]);
      CoreStep(Exec(start, steps[..n]), steps[n]);
      GrowsTransitive(Exec(start, steps[..i]).store, Exec(start, steps[..n]).store, Exec(start, steps).store);
    }
  }

  /** Whatever the interleaving and wherever it crashes: `Merged` is persisted at most once per task,
      and a task stored as closed or canceled stays stored that way. */
  lemma MergedOnceAndTerminalForever(start: Sys, steps: seq<Step>, i: nat)
    requires Start(start) && i <= |steps|
    ensures forall t :: Exec(start, steps).merged[t] <= 1
    ensures var earlier, later := Exec(start, steps[..i]).store, Exec(start, steps).store;
            forall t :: earlier.IsTask(t) && earlier.TaskOf(t).Terminal() ==>
                          later.IsTask(t) && later.StateOf(t) == earlier.StateOf(t)
  {
    hide Next;
    CoreRun(start, steps);
    GrowsAlong(start, steps, i);
    var earlier, later := Exec(start, steps[..i]).store, Exec(start, steps).store;
    forall t | earlier.IsTask(t) && earlier.TaskOf(t).Terminal()
      ensures later.IsTask(t) && later.StateOf(t) == earlier.StateOf(t)
    {
      assert earlier.TaskAt(t).Terminal() && later.beads[t].kind == earlier.beads[t].kind;
    }
  }

  /** What happens to the roles from outside: a crash loses what a thread still had to do, and nothing else; a check or
      a landing can be given up at any moment, which changes neither the ledger nor main; a rollback takes main back to
      where the landing found it, unless somebody moved it on. */
  lemma WhatMayHappen(s: Sys, i: nat)
    ensures i < |s.threads| ==>
              && Next(s, Crash(i)).threads[i] == [] && |Next(s, Crash(i)).threads| == |s.threads|
              && (forall j :: 0 <= j < |s.threads| && j != i ==> Next(s, Crash(i)).threads[j] == s.threads[j])
              && Next(s, Crash(i)) == s.(threads := Next(s, Crash(i)).threads)
    ensures Next(s, CheckAbort) == s.(checking := NoCheck) && Next(s, LandAbort) == s.(landing := NoLanding)
    ensures s.landing.Landing? && s.landing.moved.Some? && s.main == s.landing.moved.value.1 ==>
              Next(s, LandRollback) == s.(main := s.landing.moved.value.0, landing := NoLanding)
    ensures s.landing.Landing? && s.landing.moved.Some? && s.main != s.landing.moved.value.1 ==>
              Next(s, LandRollback) == s
  {
    hide Fire, StartLanding, DoWrite, VerifyListing, Advance;
  }

  /** Who must wait: a worker whose task is not ready and open, or that did not pick it, or that loses the race for the
      ledger's claim, or that never won it; a second check or landing beside the one in progress; a landing that ends
      other than it stands. */
  predicate MustWait(s: Sys, step: Step) {
    match step
    case Pick(id) => !s.store.IsReady(id, Task) || !s.store.IsTask(id) || !s.store.StateOf(id).Open?
    case TakeClaim(id) => id !in s.picked || (id in s.store.beads && s.store.beads[id].status.InProgress?)
    case ClaimLease(id, _, _, _) => id !in s.claimed
    case CheckList => s.checking.Checking?
    case CheckStart(id, _) => s.checking.Checking? || id !in s.listed
    case CheckEnd(_) => s.checking.NoCheck?
    case LandStart(_) => s.landing.Landing?
    case RemoteAhead(_) => s.landing.NoLanding? || s.landing.moved.Some?
    case LandMove(to) => s.landing.NoLanding? || s.landing.moved.Some? || !Ancestor(s.main, to)
    case LandRejected(_) => s.landing.NoLanding? || s.landing.moved.Some?
    case LandDone => s.landing.NoLanding? || s.landing.moved.None?
    case _ => false
  }

  /** Whoever must wait changes nothing. */
  lemma WaitingChangesNothing(s: Sys, step: Step)
    requires MustWait(s, step)
    ensures Next(s, step) == s
  {
    hide Fire, StartLanding, DoWrite, VerifyListing, Advance;
  }

  // ---- when main moves -----------------------------------------------------------------------------------

  /** No cancel, escalation or hand close of the task being landed before main is moved for it. */
  predicate LeavesLandingAlone(s: Sys, step: Step) {
    AboutToMove(s) ==> Undisturbed(s, step)
  }

  predicate Undisturbed(s: Sys, step: Step)
    requires s.landing.Landing?
  {
    step.CancelTask? || step.EscalateTask? || step.HandClose? ==> step.id != s.landing.task
  }

  ghost predicate LandingsLeftAlone(start: Sys, steps: seq<Step>) {
    forall i :: 0 <= i < |steps| ==> LeavesLandingAlone(Exec(start, steps[..i]), steps[i])
  }

  /** What the Integrator is landing is stored as mergeable with the branch and head it loaded, and its
      bead is not closed. */
  predicate IsOpenWork(s: Sys)
    requires s.landing.Landing?
  {
    && s.store.IsTask(s.landing.task)
    && s.store.StateOf(s.landing.task) == T.Mergeable(s.landing.branch, s.landing.head)
    && !s.store.beads[s.landing.task].status.Closed?
  }

  predicate LandingIsOpen(s: Sys) {
    AboutToMove(s) ==> IsOpenWork(s)
  }

  /** Whenever main can be fast-forwarded in the run, to whatever head, it is for open work. */
  ghost predicate MovesOnlyForOpenWork(start: Sys, steps: seq<Step>) {
    forall i: nat, to: Sha :: i <= |steps| && CanMove(Exec(start, steps[..i]), to) ==>
      IsOpenWork(Exec(start, steps[..i]))
  }

  lemma MergeableAccepts(t: T.Task, event: T.Event)
    requires t.state.Mergeable? && t.Apply(event).Accepted?
    ensures event.Merged? || event.MergeFailed? || event.Escalate? || event.Cancel?
  {
  }

  lemma VerdictKinds(commands: seq<string>, results: seq<V.RunResult>)
    requires |results| <= |commands|
    ensures var e := V.Verdict(commands, results); e.VerifyPassed? || e.VerifyBlocked? || e.VerifyFailed?
    ensures V.Verdict(commands, results).VerifyPassed? <==> V.Passed(commands, results)
  {
    hide V.NoteText, V.Passed, V.Environmental;
  }

  lemma FiredKinds(s: Sys, step: Step)
    requires Fired(s, step).Some?
    ensures var e := Fired(s, step).value.1;
            && (e.Merged? || e.MergeFailed? ==> step.LandDone? || step.LandRejected?)
            && (e.Escalate? ==> step.EscalateTask?) && (e.Cancel? ==> step.CancelTask?)
            && (e.OperatorRetry? ==> step.RetryTask?)
            && (e.VerifyPassed? || e.VerifyBlocked? || e.VerifyFailed? ==> step.CheckEnd?)
    ensures step.EscalateTask? || step.CancelTask? || step.RetryTask? ==> Fired(s, step).value.0 == step.id
  {
    hide V.Verdict;
    if step.CheckEnd? {
      VerdictKinds(s.checking.commands, step.results);
    }
  }

  /** What is being landed, before main is moved or after, stays open unless a step disturbs it. */
  lemma LandingKept(s: Sys, step: Step)
    requires Core(s) && s.landing.Landing? && IsOpenWork(s) && Undisturbed(s, step)
    requires var landing := Next(s, step).landing; landing.Landing? && landing == s.landing.(moved := landing.moved)
    ensures IsOpenWork(Next(s, step))
  {
    hide Next, Fired, Core, T.Task.Apply;
    var t := s.landing.task;
    var next := Next(s, step);
    CoreStep(s, step);
    StepChanges(s, step);
    var fired := Fired(s, step);
    if fired.Some? && fired.value.0 == t && s.store.TaskOf(t).Apply(fired.value.1).Accepted? {
      MergeableAccepts(s.store.TaskOf(t), fired.value.1);
      FiredKinds(s, step);
      FiredKeepsLanding(s, step);
    }
    assert t in next.store.beads && next.store.beads[t].meta == s.store.beads[t].meta;
    if next.store.beads[t].status.Closed? {
      StepCloses(s, step, t);
    }
  }

  lemma StartLandingIsOpen(s: Sys, mb: BeadId)
    requires s.landing.NoLanding?
    ensures LandingIsOpen(StartLanding(s, mb))
  {
  }

  lemma StartLandingMoves(s: Sys, mb: BeadId)
    requires s.landing.NoLanding?
    ensures StartLanding(s, mb).landing.Landing? ==> AboutToMove(StartLanding(s, mb))
  {
  }

  lemma FireKeepsLanding(s: Sys, id: BeadId, event: T.Event, after: seq<Todo>)
    ensures var next := Fire(s, id, event, after);
            && next.landing == s.landing && next.checking == s.checking && next.proofs == s.proofs
            && next.listed == s.listed
            && next.picked == s.picked && next.claimed == s.claimed && next.main == s.main
  {
    hide T.Task.Apply;
  }

  lemma FiredKeepsLanding(s: Sys, step: Step)
    requires Fired(s, step).Some?
    ensures Next(s, step).landing == if step.LandDone? || step.LandRejected? then NoLanding else s.landing
    ensures Next(s, step).checking == if step.CheckEnd? then NoCheck else s.checking
    ensures step.CheckEnd? ==>
              Next(s, step).proofs == s.proofs
                  + {Proof(s.checking.task, s.checking.head, s.checking.commands, step.results)}
    ensures !step.CheckEnd? ==> Next(s, step).proofs == s.proofs
    ensures Next(s, step).picked == s.picked && Next(s, step).claimed == s.claimed && Next(s, step).main == s.main
    ensures Next(s, step).listed == s.listed
  {
    hide Fire, V.Verdict;
    if step.CheckEnd? {
      var c := s.checking;
      FireKeepsLanding(s.(checking := NoCheck, proofs := s.proofs + {Proof(c.task, c.head, c.commands, step.results)}),
                       c.task, V.Verdict(c.commands, step.results), []);
    } else if step.LandDone? {
      FireKeepsLanding(s.(landing := NoLanding), s.landing.task, T.Merged(s.landing.moved.value.1),
                       [Do(Close(s.landing.mergeBead))]);
    } else if step.LandRejected? {
      FireKeepsLanding(s.(landing := NoLanding), s.landing.task, T.MergeFailed(step.detail),
                       [Do(Close(s.landing.mergeBead))]);
    } else {
      FireKeepsLanding(s, FiredBy(s, step).value.0, FiredBy(s, step).value.1, []);
    }
  }

  lemma LandingShapes(s: Sys, step: Step)
    ensures var next := Next(s, step);
            || next.landing.NoLanding?
            || next.landing == s.landing
            || (AboutToMove(s) && next.landing.moved.Some? && next.landing == s.landing.(moved := next.landing.moved))
            || (s.landing.NoLanding? && step.LandStart? && next == StartLanding(s, step.mergeBead))
  {
    hide StartLanding, V.Verdict, V.IsRunOf, Plannable, Advance, DoWrite, Fire, VerifyListing;
    if Fired(s, step).Some? {
      FiredKeepsLanding(s, step);
    } else {
      if step.Progress? && step.thread < |s.threads| && s.threads[step.thread] != [] {
        AdvanceKeepsLanding(s, step.thread);
      }
      DoWriteKeepsLanding(s);
    }
  }

  lemma AdvanceKeepsLanding(s: Sys, i: nat)
    requires i < |s.threads| && s.threads[i] != []
    ensures Advance(s, i).landing == s.landing && Advance(s, i).checking == s.checking
    ensures Advance(s, i).proofs == s.proofs && Advance(s, i).listed == s.listed
    ensures Advance(s, i).picked == s.picked && Advance(s, i).claimed == s.claimed
    ensures Advance(s, i).main == s.main && Advance(s, i).merged == s.merged
  {
  }

  lemma DoWriteKeepsLanding(s: Sys)
    ensures forall w :: DoWrite(s, w) == s.(store := DoWrite(s, w).store)
  {
  }

  lemma LandingStep(s: Sys, step: Step)
    requires Core(s) && LandingIsOpen(s) && LeavesLandingAlone(s, step)
    ensures LandingIsOpen(Next(s, step))
  {
    hide Next, Core, StartLanding;
    LandingShapes(s, step);
    if s.landing.NoLanding? && step.LandStart? {
      StartLandingIsOpen(s, step.mergeBead);
    } else if AboutToMove(Next(s, step)) {
      LandingKept(s, step);
    }
  }

  lemma {:induction false} LandingRun(start: Sys, steps: seq<Step>)
    requires Start(start) && LandingsLeftAlone(start, steps)
    ensures LandingIsOpen(Exec(start, steps))
  {
    hide Next;
    if steps != [] {
      var n := |steps| - 1;
      assert forall i :: 0 <= i < n ==> steps[..n][..i] == steps[..i];
      LandingRun(start, steps[..n]);
      CoreRun(start, steps[..n]);
      LandingStep(Exec(start, steps[..n]), steps[n]);
    }
  }

  /** Over a whole run main can move only for open work exactly when nobody cancels, escalates or closes the
      task being landed between the Integrator's look at it and the fast-forward. */
  lemma MainMovesOnlyForOpenWorkIff(start: Sys, steps: seq<Step>)
    requires Start(start)
    ensures MovesOnlyForOpenWork(start, steps) <==> LandingsLeftAlone(start, steps)
  {
    hide Next, IsOpenWork, Start;
    forall i: nat | i <= |steps| && LandingsLeftAlone(start, steps)
      ensures LandingIsOpen(Exec(start, steps[..i]))
    {
      assert forall j :: 0 <= j < i ==> steps[..i][..j] == steps[..j];
      LandingRun(start, steps[..i]);
    }
    forall i: nat | i < |steps| && MovesOnlyForOpenWork(start, steps)
      ensures LeavesLandingAlone(Exec(start, steps[..i]), steps[i])
    {
      var s, next := Exec(start, steps[..i]), Exec(start, steps[..i + 1]);
      assert steps[..i + 1][..i] == steps[..i];
      OpenWhereMovable(s);
      OpenWhereMovable(next);
      if !LeavesLandingAlone(s, steps[i]) {
        DisturbanceShows(s, steps[i]);
      }
    }
  }

  lemma OpenWhereMovable(s: Sys)
    requires forall to :: CanMove(s, to) ==> IsOpenWork(s)
    ensures LandingIsOpen(s)
  {
    hide IsOpenWork;
    assert AboutToMove(s) ==> CanMove(s, s.main);
  }

  /** In every interleaving, with a crash allowed after any write, main is fast-forwarded for a task
      only while the task is stored as mergeable with exactly the branch and head of the merge bead
      being landed and the task's bead is not closed; and the task was never stored as closed or
      canceled before. */
  lemma MainMovesOnlyForOpenWork(start: Sys, steps: seq<Step>, to: Sha)
    requires Start(start) && LandingsLeftAlone(start, steps)
    requires CanMove(Exec(start, steps), to)
    ensures var s := Exec(start, steps);
            var mb := s.landing.mergeBead;
            && mb in s.store.beads && s.store.beads[mb].kind == Some(Merge) && s.store.beads[mb].merge.Some?
            && var meta := s.store.beads[mb].merge.value;
               && meta.task == s.landing.task
               && s.store.IsTask(meta.task)
               && s.store.StateOf(meta.task) == T.Mergeable(meta.branch, meta.head)
               && !s.store.beads[meta.task].status.Closed?
               && s.merged[meta.task] == 0
    ensures var t := Exec(start, steps).landing.task;
            forall i :: 0 <= i <= |steps| ==>
              var earlier := Exec(start, steps[..i]).store;
              earlier.IsTask(t) ==> !earlier.TaskOf(t).Terminal()
  {
    hide Next;
    CoreRun(start, steps);
    LandingRun(start, steps);
    var t := Exec(start, steps).landing.task;
    forall i | 0 <= i <= |steps|
      ensures var earlier := Exec(start, steps[..i]).store;
              earlier.IsTask(t) ==> !earlier.TaskOf(t).Terminal()
    {
      MergedOnceAndTerminalForever(start, steps, i);
    }
  }

  /** Main itself changes only in an Integrator's own steps: the initial sync, the fast-forward, the
      rollback of the fast-forward. */
  lemma OnlyTheIntegratorMovesMain(s: Sys, step: Step)
    requires Next(s, step).main != s.main
    ensures s.landing.Landing?
    ensures || (step.RemoteAhead? && s.landing.moved.None? && Ancestor(s.main, Next(s, step).main))
            || (step.LandMove? && CanMove(s, step.to) && Next(s, step).main == step.to)
            || (step.LandRollback? && s.landing.moved == Some((Next(s, step).main, s.main)))
  {
    hide StartLanding, V.Verdict, V.IsRunOf, Plannable, Advance, DoWrite, Fire, VerifyListing;
    if Fired(s, step).Some? {
      FiredKeepsLanding(s, step);
    } else {
      if step.Progress? && step.thread < |s.threads| && s.threads[step.thread] != [] {
        AdvanceKeepsLanding(s, step.thread);
      }
      DoWriteKeepsLanding(s);
      if step.LandStart? {
        StartLandingKeepsMain(s, step.mergeBead);
      }
    }
  }

  lemma StartLandingKeepsMain(s: Sys, mb: BeadId)
    ensures StartLanding(s, mb).main == s.main
    ensures StartLanding(s, mb).proofs == s.proofs && StartLanding(s, mb).checking == s.checking
    ensures StartLanding(s, mb).listed == s.listed
    ensures StartLanding(s, mb).picked == s.picked && StartLanding(s, mb).claimed == s.claimed
  {
  }

  // ---- what was verified ----------------------------------------------------------------------------------------

  /** No operator retry of the task under verification while it waits for an operator. */
  predicate LeavesCheckAlone(s: Sys, step: Step) {
    s.checking.Checking? && step.RetryTask? && s.store.IsTask(step.id) && s.store.StateOf(step.id).Incident? ==>
      step.id != s.checking.task
  }

  ghost predicate ChecksLeftAlone(start: Sys, steps: seq<Step>) {
    forall i :: 0 <= i < |steps| ==> LeavesCheckAlone(Exec(start, steps[..i]), steps[i])
  }

  /** Some verify run of the task ran every command of its list, in order, on `head`, and every one
      succeeded. */
  ghost predicate Verified(s: Sys, task: BeadId, head: Sha) {
    exists p :: p in s.proofs && p.task == task && p.head == head && AllRanAndSucceeded(p)
  }

  predicate AllRanAndSucceeded(p: Proof) {
    |p.results| == |p.commands| && forall i :: 0 <= i < |p.results| ==> V.Succeeded(p.results[i])
  }

  /** Except where a task was mergeable with that head in `from`. */
  ghost predicate MergeableIsVerified(s: Sys, from: Store) {
    forall t :: s.store.IsTask(t) && s.store.StateOf(t).Mergeable? ==>
      HeadIsVerified(s, from, t, s.store.StateOf(t).head)
  }

  ghost predicate HeadIsVerified(s: Sys, from: Store, task: BeadId, head: Sha) {
    WasMergeable(from, task, head) || Verified(s, task, head)
  }

  /** The step ends a verify run in which every command succeeded while its task awaits a verdict. */
  predicate IsPass(s: Sys, step: Step) {
    && step.CheckEnd? && s.checking.Checking? && V.IsRunOf(s.checking.commands, step.results)
    && V.Passed(s.checking.commands, step.results)
    && s.store.IsTask(s.checking.task) && s.store.StateOf(s.checking.task).InVerify?
  }

  /** A pass finds the head it checked still submitted, or one that some other run verified. */
  ghost predicate PassIsSound(s: Sys, step: Step, from: Store) {
    IsPass(s, step) ==>
      var head := s.store.StateOf(s.checking.task).head;
      head == s.checking.head || HeadIsVerified(s, from, s.checking.task, head)
  }

  ghost predicate PassesAreSound(start: Sys, steps: seq<Step>) {
    forall i :: 0 <= i < |steps| ==> PassIsSound(Exec(start, steps[..i]), steps[i], start.store)
  }

  /** The task under verification still has the head being checked, or left for good or for an
      operator. */
  predicate CheckedHeadStands(s: Sys) {
    s.checking.Checking? ==>
      && s.store.IsTask(s.checking.task)
      && var state := s.store.StateOf(s.checking.task);
         (state.InVerify? && state.head == s.checking.head) || state.Incident? || state.Canceled?
  }

  lemma NewStates(t: T.Task, event: T.Event)
    requires t.Apply(event).Accepted?
    ensures var next := t.Apply(event).task.state;
            && (next.Mergeable? ==> event.VerifyPassed? && t.state.InVerify? && t.state.head == next.head)
            && (t.state.InVerify? ==>
                  || event.Escalate? || event.Cancel?
                  || event.VerifyPassed? || event.VerifyBlocked? || event.VerifyFailed?)
            && (t.state.Incident? ==> event.Cancel? || event.OperatorRetry?)
            && (event.Escalate? ==> next.Incident?) && (event.Cancel? ==> next.Canceled?)
            && (event.OperatorRetry? ==> t.state.Incident?)
  {
  }

  lemma ProofsGrow(s: Sys, step: Step)
    ensures s.proofs <= Next(s, step).proofs
    ensures || (Next(s, step).checking == s.checking) || Next(s, step).checking.NoCheck?
            || (s.checking.NoCheck? && step.CheckStart?)
  {
    hide StartLanding, V.Verdict, V.IsRunOf, Plannable, Advance, DoWrite, Fire, VerifyListing;
    if Fired(s, step).Some? {
      FiredKeepsLanding(s, step);
    } else {
      if step.Progress? && step.thread < |s.threads| && s.threads[step.thread] != [] {
        AdvanceKeepsLanding(s, step.thread);
      }
      DoWriteKeepsLanding(s);
      if step.LandStart? {
        StartLandingKeepsMain(s, step.mergeBead);
      }
    }
  }

  lemma CheckStandsStep(s: Sys, step: Step)
    requires Core(s) && CheckedHeadStands(s) && LeavesCheckAlone(s, step)
    ensures CheckedHeadStands(Next(s, step))
  {
    hide Next, Fired, Core, T.Task.Apply;
    var next := Next(s, step);
    ProofsGrow(s, step);
    if s.checking.NoCheck? && step.CheckStart? {
      CheckStarts(s, step);
    } else if next.checking.Checking? {
      var t := s.checking.task;
      CoreStep(s, step);
      StepChanges(s, step);
      assert t in next.store.beads && next.store.beads[t].kind == s.store.beads[t].kind;
      var fired := Fired(s, step);
      if fired.Some? && fired.value.0 == t && s.store.TaskOf(t).Apply(fired.value.1).Accepted? {
        NewStates(s.store.TaskOf(t), fired.value.1);
        FiredKinds(s, step);
        FiredKeepsLanding(s, step);
        ApplyKeeps(s.store.TaskOf(t), fired.value.1);
      }
    }
  }

  lemma CheckStarts(s: Sys, step: Step)
    requires s.checking.NoCheck? && step.CheckStart?
    ensures CheckedHeadStands(Next(s, step)) && Next(s, step).proofs == s.proofs
  {
  }

  lemma PassProves(s: Sys, step: Step, t: BeadId, from: Store)
    requires Core(s) && PassIsSound(s, step, from)
    requires Fired(s, step).Some? && Fired(s, step).value.0 == t && Fired(s, step).value.1.VerifyPassed?
    requires s.store.IsTask(t) && s.store.StateOf(t).InVerify?
    ensures HeadIsVerified(Next(s, step), from, t, s.store.StateOf(t).head)
  {
    hide Next, Core, T.Task.Apply, V.Verdict, V.Passed;
    FiredKinds(s, step);
    FiredKeepsLanding(s, step);
    var c := s.checking;
    VerdictKinds(c.commands, step.results);
    V.PassedIffEveryCommandSucceeded(c.commands, step.results);
    var p := Proof(c.task, c.head, c.commands, step.results);
    assert p in Next(s, step).proofs && AllRanAndSucceeded(p);
    if Verified(s, t, s.store.StateOf(t).head) {
      VerifiedStays(s, Next(s, step), t, s.store.StateOf(t).head);
    }
  }

  lemma VerifiedStays(a: Sys, b: Sys, task: BeadId, head: Sha)
    requires a.proofs <= b.proofs && Verified(a, task, head)
    ensures Verified(b, task, head)
  {
    var p :| p in a.proofs && p.task == task && p.head == head && AllRanAndSucceeded(p);
    assert p in b.proofs;
  }

  /** A task bead that a step adds is `Open`. */
  lemma NewTasksAreOpen(s: Sys, step: Step, t: BeadId)
    requires Core(s) && t !in s.store.beads && Next(s, step).store.IsTask(t)
    ensures Next(s, step).store.StateOf(t).Open?
  {
    hide V.Verdict, Core, Fire, Advance, StartLanding, DoWrite;
    if Fired(s, step).Some? {
      FiredKeys(s, step);
    } else if step.Progress? && step.thread < |s.threads| && s.threads[step.thread] != [] {
      AdvanceAddsNoTask(s, step.thread, t);
    } else if step.LandStart? {
      CoreStartLandingSame(s, step.mergeBead);
    } else {
      WriteAddsOnlyPlanned(s, t);
    }
  }

  lemma FiredKeys(s: Sys, step: Step)
    requires Fired(s, step).Some?
    ensures Next(s, step).store.beads.Keys == s.store.beads.Keys
    ensures Next(s, step).store.needs == s.store.needs
  {
    hide Next, Fired, Fire;
    var from, after := FiredAs(s, step);
    FireKeys(from, Fired(s, step).value.0, Fired(s, step).value.1, after);
  }

  lemma FireKeys(s: Sys, id: BeadId, event: T.Event, after: seq<Todo>)
    ensures Fire(s, id, event, after).store.beads.Keys == s.store.beads.Keys
    ensures Fire(s, id, event, after).store.needs == s.store.needs
  {
    hide T.Task.Apply;
  }

  lemma AdvanceAddsNoTask(s: Sys, i: nat, t: BeadId)
    requires Core(s) && i < |s.threads| && s.threads[i] != [] && t !in s.store.beads
    ensures !Advance(s, i).store.IsTask(t)
  {
    hide Advance, Core;
    AdvanceWrites(s, i);
  }

  lemma WriteAddsOnlyPlanned(s: Sys, t: BeadId)
    requires t !in s.store.beads
    ensures forall w :: DoWrite(s, w).store.IsTask(t) ==>
              && w.Create? && w.bead.kind == Task && w.bead.meta.Some?
              && DoWrite(s, w).store.StateOf(t) == w.bead.meta.value.state
  {
  }

  lemma VerifiedStep(s: Sys, step: Step, from: Store)
    requires Core(s) && PassIsSound(s, step, from) && MergeableIsVerified(s, from)
    ensures MergeableIsVerified(Next(s, step), from)
  {
    hide Next, Fired, Core, T.Task.Apply, PassIsSound, WasMergeable, Verified;
    var next := Next(s, step);
    ProofsGrow(s, step);
    CoreStep(s, step);
    StepChanges(s, step);
    var fired := Fired(s, step);
    forall t | next.store.IsTask(t) && next.store.StateOf(t).Mergeable?
      ensures HeadIsVerified(next, from, t, next.store.StateOf(t).head)
    {
      if t !in s.store.beads {
        NewTasksAreOpen(s, step, t);
      } else {
        assert next.store.beads[t].kind == s.store.beads[t].kind;
        if next.store.beads[t].meta != s.store.beads[t].meta {
          NewStates(s.store.TaskOf(t), fired.value.1);
          PassProves(s, step, t, from);
        } else if Verified(s, t, s.store.StateOf(t).head) {
          VerifiedStays(s, next, t, s.store.StateOf(t).head);
        }
      }
    }
  }

  /** A pass that finds another, unverified head makes it mergeable. */
  lemma UnsoundPassShows(s: Sys, step: Step, from: Store)
    requires !PassIsSound(s, step, from)
    ensures !MergeableIsVerified(Next(s, step), from)
  {
    hide Next, V.Verdict, V.Passed, V.IsRunOf;
    var c := s.checking;
    var head := s.store.StateOf(c.task).head;
    PassLeadsOn(s, step);
    FiredKeepsLanding(s, step);
    var next := Next(s, step);
    assert next.store.IsTask(c.task) && next.store.StateOf(c.task).Mergeable?
        && next.store.StateOf(c.task).head == head;
    assert forall p :: p in next.proofs && p.task == c.task && p.head == head ==> p in s.proofs;
  }

  lemma PassLeadsOn(s: Sys, step: Step)
    requires IsPass(s, step)
    ensures Fired(s, step) == Some((s.checking.task, T.VerifyPassed))
    ensures var store := Next(s, step).store;
            && store.IsTask(s.checking.task) && store.StateOf(s.checking.task).Mergeable?
            && store.StateOf(s.checking.task).head == s.store.StateOf(s.checking.task).head
  {
    hide V.NoteText, V.Passed, V.Environmental;
    var c := s.checking;
    assert V.Verdict(c.commands, step.results) == T.VerifyPassed;
  }

  /** A ledger in which nothing is mergeable yet; in particular one of fresh tasks only. */
  ghost predicate NothingMergeable(s: Store) {
    forall t :: s.IsTask(t) ==> !s.StateOf(t).Mergeable?
  }

  lemma {:induction false} VerifiedRun(start: Sys, steps: seq<Step>)
    requires Start(start) && PassesAreSound(start, steps)
    ensures MergeableIsVerified(Exec(start, steps), start.store)
  {
    hide Next, PassIsSound;
    if steps != [] {
      var n := |steps| - 1;
      assert forall i :: 0 <= i < n ==> steps[..n][..i] == steps[..i];
      VerifiedRun(start, steps[..n]);
      CoreRun(start, steps[..n]);
      VerifiedStep(Exec(start, steps[..n]), steps[n], start.store);
    }
  }

  lemma {:induction false} CheckStandsRun(start: Sys, steps: seq<Step>)
    requires Start(start) && ChecksLeftAlone(start, steps)
    ensures CheckedHeadStands(Exec(start, steps))
  {
    hide Next;
    if steps != [] {
      var n := |steps| - 1;
      assert forall i :: 0 <= i < n ==> steps[..n][..i] == steps[..i];
      CheckStandsRun(start, steps[..n]);
      CoreRun(start, steps[..n]);
      CheckStandsStep(Exec(start, steps[..n]), steps[n]);
    }
  }

  /** Where no retry falls into a check, every pass finds the head it checked. */
  lemma ChecksLeftAloneAreSound(start: Sys, steps: seq<Step>)
    requires Start(start) && ChecksLeftAlone(start, steps)
    ensures PassesAreSound(start, steps)
  {
    hide Next, Start;
    forall i | 0 <= i < |steps|
      ensures PassIsSound(Exec(start, steps[..i]), steps[i], start.store)
    {
      assert forall j :: 0 <= j < i ==> steps[..i][..j] == steps[..j];
      CheckStandsRun(start, steps[..i]);
    }
  }

  /** Step `i` listed a verify bead that names the task, and step `j` started a verify run of the task on `head`
      with the prepare commands followed by the listed ones, of which there is at least one. */
  ghost predicate IsOrder(start: Sys, steps: seq<Step>, i: nat, j: nat, task: BeadId, head: Sha,
                          commands: seq<string>) {
    && i < j < |steps| && steps[i].CheckList? && steps[j].CheckStart?
    && Lists(Exec(start, steps[..i]).store, steps[j].verifyBead, steps[j].prepare, task, commands)
    && Awaits(Exec(start, steps[..j]).store, task, head)
  }

  predicate Lists(s: Store, vb: BeadId, prepare: seq<string>, task: BeadId, commands: seq<string>) {
    && s.IsActive(vb, Verify) && s.beads[vb].verify.Some?
    && s.beads[vb].verify.value.task == task && s.beads[vb].verify.value.commands != []
    && commands == prepare + s.beads[vb].verify.value.commands
  }

  predicate Awaits(s: Store, task: BeadId, head: Sha) {
    s.IsTask(task) && s.StateOf(task).InVerify? && s.StateOf(task).head == head
  }

  ghost predicate WasOrdered(start: Sys, steps: seq<Step>, task: BeadId, head: Sha, commands: seq<string>) {
    exists i: nat, j: nat :: IsOrder(start, steps, i, j, task, head, commands)
  }

  /** Step `i` read the verify data off the bead. */
  ghost predicate IsListing(start: Sys, steps: seq<Step>, i: nat, vb: BeadId, meta: VerifyMeta) {
    && i < |steps| && steps[i].CheckList?
    && vb in VerifyListing(Exec(start, steps[..i]).store) && VerifyListing(Exec(start, steps[..i]).store)[vb] == meta
  }

  ghost predicate WasListed(start: Sys, steps: seq<Step>, vb: BeadId, meta: VerifyMeta) {
    exists i: nat :: IsListing(start, steps, i, vb, meta)
  }

  lemma ListedStays(start: Sys, steps: seq<Step>, n: nat, vb: BeadId, meta: VerifyMeta)
    requires n <= |steps| && WasListed(start, steps[..n], vb, meta)
    ensures WasListed(start, steps, vb, meta)
  {
    hide VerifyListing;
    var i: nat :| IsListing(start, steps[..n], i, vb, meta);
    assert steps[..n][..i] == steps[..i];
    assert IsListing(start, steps, i, vb, meta);
  }

  lemma OrderedStays(start: Sys, steps: seq<Step>, n: nat, task: BeadId, head: Sha, commands: seq<string>)
    requires n <= |steps| && WasOrdered(start, steps[..n], task, head, commands)
    ensures WasOrdered(start, steps, task, head, commands)
  {
    hide Lists, Awaits;
    var i: nat, j: nat :| IsOrder(start, steps[..n], i, j, task, head, commands);
    assert steps[..n][..i] == steps[..i] && steps[..n][..j] == steps[..j];
    assert IsOrder(start, steps, i, j, task, head, commands);
  }

  /** Where listings come from. */
  lemma ListSources(s: Sys, step: Step)
    ensures Next(s, step).listed == s.listed || (step.CheckList? && Next(s, step).listed == VerifyListing(s.store))
  {
    hide StartLanding, V.Verdict, Plannable, Advance, DoWrite, Fire, VerifyListing;
    if Fired(s, step).Some? {
      FiredKeepsLanding(s, step);
    } else {
      if step.Progress? && step.thread < |s.threads| && s.threads[step.thread] != [] {
        AdvanceKeepsLanding(s, step.thread);
      }
      DoWriteKeepsLanding(s);
      if step.LandStart? {
        StartLandingKeepsMain(s, step.mergeBead);
      }
    }
  }

  ghost predicate AllWereListed(start: Sys, steps: seq<Step>, listed: map<BeadId, VerifyMeta>) {
    forall vb :: vb in listed ==> WasListed(start, steps, vb, listed[vb])
  }

  lemma {:induction false} ListingsWereRead(start: Sys, steps: seq<Step>)
    requires Start(start)
    ensures AllWereListed(start, steps, Exec(start, steps).listed)
  {
    hide Next, AllWereListed, VerifyListing;
    if steps == [] {
      NothingListed(start);
    } else {
      var n := |steps| - 1;
      var before, s := Exec(start, steps[..n]), Exec(start, steps);
      ListingsWereRead(start, steps[..n]);
      ListSources(before, steps[n]);
      if s.listed == before.listed {
        AllListedStays(start, steps, n, s.listed);
      } else {
        ListedNow(start, steps, n);
      }
    }
  }

  lemma NothingListed(start: Sys)
    requires Start(start)
    ensures AllWereListed(start, [], start.listed)
  {
  }

  lemma AllListedStays(start: Sys, steps: seq<Step>, n: nat, listed: map<BeadId, VerifyMeta>)
    requires n <= |steps| && AllWereListed(start, steps[..n], listed)
    ensures AllWereListed(start, steps, listed)
  {
    hide WasListed;
    forall vb | vb in listed
      ensures WasListed(start, steps, vb, listed[vb])
    {
      ListedStays(start, steps, n, vb, listed[vb]);
    }
  }

  lemma ListedNow(start: Sys, steps: seq<Step>, i: nat)
    requires i < |steps| && steps[i].CheckList?
    ensures AllWereListed(start, steps, VerifyListing(Exec(start, steps[..i]).store))
  {
    hide VerifyListing, Exec;
    var listed := VerifyListing(Exec(start, steps[..i]).store);
    assert forall vb :: vb in listed ==> IsListing(start, steps, i, vb, listed[vb]);
  }

  /** Where verify runs and their records come from. */
  lemma CheckSources(s: Sys, step: Step)
    ensures var next := Next(s, step);
            && (next.checking == s.checking || next.checking.NoCheck?
                || (step.CheckStart? && next.checking.Checking? && step.verifyBead in s.listed
                    && next.checking.task == s.listed[step.verifyBead].task
                    && next.checking.commands == step.prepare + s.listed[step.verifyBead].commands
                    && Awaits(s.store, next.checking.task, next.checking.head)))
            && forall p :: p in next.proofs && p !in s.proofs ==>
                 s.checking == Checking(p.task, p.head, p.commands)
  {
    hide StartLanding, V.Verdict, Plannable, Advance, DoWrite, Fire, VerifyListing;
    if Fired(s, step).Some? {
      FiredKeepsLanding(s, step);
    } else {
      if step.Progress? && step.thread < |s.threads| && s.threads[step.thread] != [] {
        AdvanceKeepsLanding(s, step.thread);
      }
      DoWriteKeepsLanding(s);
      if step.LandStart? {
        StartLandingKeepsMain(s, step.mergeBead);
      }
    }
  }

  /** Every recorded verify run was started by a step whose commands the Verifier had listed off a verify bead. */
  lemma {:induction false} ProofsWereOrdered(start: Sys, steps: seq<Step>)
    requires Start(start)
    ensures var s := Exec(start, steps);
            && (forall p :: p in s.proofs ==> WasOrdered(start, steps, p.task, p.head, p.commands))
            && (s.checking.Checking? ==> WasOrdered(start, steps, s.checking.task, s.checking.head,
                                                    s.checking.commands))
  {
    hide Next, Awaits, WasOrdered, WasListed;
    if steps != [] {
      var n := |steps| - 1;
      var before, s := Exec(start, steps[..n]), Exec(start, steps);
      ProofsWereOrdered(start, steps[..n]);
      ListingsWereRead(start, steps[..n]);
      CheckSources(before, steps[n]);
      if before.checking.Checking? {
        OrderedStays(start, steps, n, before.checking.task, before.checking.head, before.checking.commands);
      }
      forall p | p in s.proofs
        ensures WasOrdered(start, steps, p.task, p.head, p.commands)
      {
        if p in before.proofs {
          OrderedStays(start, steps, n, p.task, p.head, p.commands);
        }
      }
      if s.checking.Checking? && s.checking != before.checking {
        OrderedNow(start, steps, n, s.checking.head);
      }
    }
  }

  /** A check that the last step started was ordered by it and by an earlier listing. */
  lemma OrderedNow(start: Sys, steps: seq<Step>, j: nat, head: Sha)
    requires j == |steps| - 1 && steps[j].CheckStart?
    requires var s := Exec(start, steps[..j]);
             && steps[j].verifyBead in s.listed
             && WasListed(start, steps[..j], steps[j].verifyBead, s.listed[steps[j].verifyBead])
             && Awaits(s.store, s.listed[steps[j].verifyBead].task, head)
    ensures var meta := Exec(start, steps[..j]).listed[steps[j].verifyBead];
            WasOrdered(start, steps, meta.task, head, steps[j].prepare + meta.commands)
  {
    hide Next, Awaits;
    var meta := Exec(start, steps[..j]).listed[steps[j].verifyBead];
    var i: nat :| IsListing(start, steps[..j], i, steps[j].verifyBead, meta);
    assert steps[..j][..i] == steps[..i];
    assert IsOrder(start, steps, i, j, meta.task, head, steps[j].prepare + meta.commands);
  }

  /** In the run, all prepare commands and all that a verify bead of the task stored when the Verifier listed it
      ran on `head`, in order, and succeeded. */
  ghost predicate PassedItsCommands(start: Sys, steps: seq<Step>, task: BeadId, head: Sha) {
    exists p :: p in Exec(start, steps).proofs && p.task == task && p.head == head && AllRanAndSucceeded(p)
                && WasOrdered(start, steps, task, head, p.commands)
  }

  /** The task was mergeable with this head before the run began. */
  predicate WasMergeable(s: Store, task: BeadId, head: Sha) {
    s.IsTask(task) && s.StateOf(task).Mergeable? && s.StateOf(task).head == head
  }

  /** The head was already mergeable at the start, or passed its commands in the run. */
  ghost predicate HeadPassed(start: Sys, steps: seq<Step>, task: BeadId, head: Sha) {
    WasMergeable(start.store, task, head) || PassedItsCommands(start, steps, task, head)
  }

  ghost predicate MergeableHeadsPassed(start: Sys, steps: seq<Step>) {
    var s := Exec(start, steps);
    forall t :: s.store.IsTask(t) && s.store.StateOf(t).Mergeable? ==>
      HeadPassed(start, steps, t, s.store.StateOf(t).head)
  }

  /** Proofs are exactly runs of ordered commands, so a verified head passed them. */
  lemma VerifiedIsPassed(start: Sys, steps: seq<Step>, task: BeadId, head: Sha)
    requires Start(start)
    ensures HeadIsVerified(Exec(start, steps), start.store, task, head) <==> HeadPassed(start, steps, task, head)
  {
    hide Next, WasOrdered, WasMergeable, Start;
    ProofsWereOrdered(start, steps);
  }

  /** Over a whole run every mergeable head passed its commands at every moment exactly when every passing
      verdict meets the head that was checked, or one that passed in another run. */
  lemma EveryMergeableHeadWasVerifiedIff(start: Sys, steps: seq<Step>)
    requires Start(start)
    ensures (forall i :: 0 <= i <= |steps| ==> MergeableHeadsPassed(start, steps[..i]))
            <==> PassesAreSound(start, steps)
  {
    hide Exec, PassIsSound, HeadIsVerified, HeadPassed, Start;
    forall i | 0 <= i <= |steps| && PassesAreSound(start, steps)
      ensures MergeableHeadsPassed(start, steps[..i])
    {
      assert forall j :: 0 <= j < i ==> steps[..i][..j] == steps[..j];
      VerifiedRun(start, steps[..i]);
      PassedMeansVerified(start, steps[..i]);
    }
    forall i | 0 <= i < |steps| && forall k :: 0 <= k <= |steps| ==> MergeableHeadsPassed(start, steps[..k])
      ensures PassIsSound(Exec(start, steps[..i]), steps[i], start.store)
    {
      assert MergeableHeadsPassed(start, steps[..i + 1]);
      PassedMeansVerified(start, steps[..i + 1]);
      ExecStep(start, steps, i);
      if !PassIsSound(Exec(start, steps[..i]), steps[i], start.store) {
        UnsoundPassShows(Exec(start, steps[..i]), steps[i], start.store);
      }
    }
  }

  lemma PassedMeansVerified(start: Sys, steps: seq<Step>)
    requires Start(start)
    ensures MergeableHeadsPassed(start, steps) <==> MergeableIsVerified(Exec(start, steps), start.store)
  {
    hide Exec, HeadIsVerified, HeadPassed, Start;
    forall t, head
      ensures HeadIsVerified(Exec(start, steps), start.store, t, head) <==> HeadPassed(start, steps, t, head)
    {
      VerifiedIsPassed(start, steps, t, head);
    }
  }

  lemma ExecStep(start: Sys, steps: seq<Step>, i: nat)
    requires i < |steps|
    ensures Exec(start, steps[..i + 1]) == Next(Exec(start, steps[..i]), steps[i])
  {
    hide Next;
    assert steps[..i + 1][..i] == steps[..i];
  }

  /** In every run whose passes are sound the head of every mergeable task that was not already mergeable with
      it at the start, and so the head of every landing, is one on which every prepare command and every
      command listed off the task's verify bead ran in order and succeeded. */
  lemma EveryMergeableHeadWasVerified(start: Sys, steps: seq<Step>)
    requires Start(start) && PassesAreSound(start, steps)
    ensures MergeableHeadsPassed(start, steps)
    ensures var s := Exec(start, steps);
            s.landing.Landing? ==> HeadPassed(start, steps, s.landing.task, s.landing.head)
  {
    hide Exec, PassIsSound, HeadIsVerified, HeadPassed, Start;
    VerifiedRun(start, steps);
    PassedMeansVerified(start, steps);
    LandedHeadRun(start, steps);
    var s := Exec(start, steps);
    if s.landing.Landing? {
      VerifiedIsPassed(start, steps, s.landing.task, s.landing.head);
    }
  }

  /** What is being landed was mergeable with its head when the landing began. */
  lemma {:induction false} LandedHeadRun(start: Sys, steps: seq<Step>)
    requires Start(start) && PassesAreSound(start, steps)
    ensures LandedHead(Exec(start, steps), start.store)
  {
    hide Next, PassIsSound, LandedHead, MergeableIsVerified;
    if steps == [] {
      NothingLanded(start);
    } else {
      var n := |steps| - 1;
      assert forall i :: 0 <= i < n ==> steps[..n][..i] == steps[..i];
      LandedHeadRun(start, steps[..n]);
      VerifiedRun(start, steps[..n]);
      LandedHeadStep(Exec(start, steps[..n]), steps[n], start.store);
    }
  }

  ghost predicate LandedHead(s: Sys, from: Store) {
    s.landing.Landing? ==> HeadIsVerified(s, from, s.landing.task, s.landing.head)
  }

  lemma NothingLanded(start: Sys)
    requires Start(start)
    ensures LandedHead(start, start.store)
  {
  }

  lemma LandedHeadStep(s: Sys, step: Step, from: Store)
    requires LandedHead(s, from) && MergeableIsVerified(s, from)
    ensures LandedHead(Next(s, step), from)
  {
    hide Next, StartLanding, Verified, WasMergeable;
    var next := Next(s, step);
    LandingShapes(s, step);
    ProofsGrow(s, step);
    if s.landing.Landing? && next.landing.Landing? && Verified(s, s.landing.task, s.landing.head) {
      VerifiedStays(s, next, s.landing.task, s.landing.head);
    }
    if s.landing.NoLanding? && step.LandStart? {
      StartLandingKeepsMain(s, step.mergeBead);
      StartLandingIsOpen(s, step.mergeBead);
      StartLandingShapes(s, step.mergeBead);
      StartLandingMoves(s, step.mergeBead);
      if next.landing.Landing? && Verified(s, next.landing.task, next.landing.head) {
        VerifiedStays(s, next, next.landing.task, next.landing.head);
      }
    }
  }

  // ---- blockers ----------------------------------------------------------------------------------------------------

  /** Task beads are not closed by hand. */
  predicate ClosesNoTask(s: Sys, step: Step) {
    step.HandClose? && step.id in s.store.beads ==> s.store.beads[step.id].kind != Some(Task)
  }

  ghost predicate NoTaskClosedByHand(start: Sys, steps: seq<Step>) {
    forall i :: 0 <= i < |steps| ==> ClosesNoTask(Exec(start, steps[..i]), steps[i])
  }

  predicate Landed(s: Store, id: BeadId) {
    s.IsTask(id) && s.StateOf(id).Closed?
  }

  /** A closed task bead belongs to a landed task. */
  ghost predicate ClosedMeansLanded(s: Store) {
    forall x :: x in s.beads && s.beads[x].kind == Some(Task) && s.beads[x].status.Closed? ==> Landed(s, x)
  }

  predicate BlockersLanded(s: Store, id: BeadId) {
    && id in s.beads && s.beads[id].kind == Some(Task)
    && forall n :: n in s.NeedsOf(id) ==> n in s.beads && (s.beads[n].kind == Some(Task) ==> Landed(s, n))
  }

  ghost predicate PicksAreUnblocked(s: Sys) {
    s.claimed <= s.picked && forall id :: id in s.picked ==> BlockersLanded(s.store, id)
  }

  lemma ClosedStep(s: Sys, step: Step)
    requires Core(s) && ClosedMeansLanded(s.store) && ClosesNoTask(s, step)
    ensures ClosedMeansLanded(Next(s, step).store)
  {
    hide Next, Core;
    var next := Next(s, step);
    CoreStep(s, step);
    forall x | x in next.store.beads && next.store.beads[x].kind == Some(Task) && next.store.beads[x].status.Closed?
      ensures Landed(next.store, x)
    {
      if x in s.store.beads {
        assert next.store.beads[x].kind == s.store.beads[x].kind;
        if !s.store.beads[x].status.Closed? {
          StepCloses(s, step, x);
        }
        assert s.store.TaskAt(x).Terminal();
      } else {
        NewBeadsAreOpen(s, step, x);
      }
    }
  }

  lemma NewBeadsAreOpen(s: Sys, step: Step, x: BeadId)
    requires Core(s) && x !in s.store.beads && x in Next(s, step).store.beads
    ensures !Next(s, step).store.beads[x].status.Closed?
  {
    hide V.Verdict, Core, Fire, Plannable, StartLanding;
    if Fired(s, step).Some? {
      FiredKeys(s, step);
    } else if step.LandStart? {
      CoreStartLandingSame(s, step.mergeBead);
    }
  }

  /** The needs of a task bead never change once it exists. */
  lemma NeedsFixed(s: Sys, step: Step, x: BeadId)
    requires Core(s) && x in s.store.beads && s.store.beads[x].kind == Some(Task)
    ensures Next(s, step).store.NeedsOf(x) == s.store.NeedsOf(x)
  {
    hide V.Verdict, Next;
    assert x < s.store.next;
    if Fired(s, step).Some? {
      FiredKeys(s, step);
    } else if step.LandStart? {
      LandStartSame(s, step);
    } else if step.Progress? {
      ProgressKeepsNeeds(s, step, x);
    } else {
      PlainStepKeepsNeeds(s, step, x);
    }
  }

  lemma ProgressKeepsNeeds(s: Sys, step: Step, x: BeadId)
    requires Core(s) && x in s.store.beads && s.store.beads[x].kind == Some(Task) && step.Progress?
    ensures Next(s, step).store.NeedsOf(x) == s.store.NeedsOf(x)
  {
    hide Next, Core, Advance;
    if step.thread < |s.threads| && s.threads[step.thread] != [] {
      ProgressAdvances(s, step);
      AdvanceKeepsNeeds(s, step.thread, x);
    } else {
      NoProgress(s, step);
    }
  }

  lemma AdvanceKeepsNeeds(s: Sys, i: nat, x: BeadId)
    requires Core(s) && x in s.store.beads && s.store.beads[x].kind == Some(Task) && i < |s.threads|
             && s.threads[i] != []
    ensures Advance(s, i).store.NeedsOf(x) == s.store.NeedsOf(x)
  {
    assert x < s.store.next;
    hide Advance;
    AdvanceWrites(s, i);
  }

  lemma PlainStepKeepsNeeds(s: Sys, step: Step, x: BeadId)
    requires x in s.store.beads && s.store.beads[x].kind == Some(Task) && x < s.store.next
    requires Fired(s, step).None? && !step.LandStart? && !step.Progress?
    ensures Next(s, step).store.NeedsOf(x) == s.store.NeedsOf(x)
  {
    hide V.Verdict, Fire, Plannable, StartLanding;
  }

  lemma PickSets(s: Sys, step: Step)
    ensures var next := Next(s, step);
            || (next.picked == s.picked && next.claimed == s.claimed)
            || (step.Pick? && s.store.IsReady(step.id, Task) && s.store.IsTask(step.id)
                && next == s.(picked := s.picked + {step.id}))
            || (step.TakeClaim? && step.id in s.picked && step.id in s.store.beads
                && !s.store.beads[step.id].status.InProgress?
                && next.picked == s.picked && next.claimed == s.claimed + {step.id})
  {
    hide StartLanding, V.Verdict, V.IsRunOf, Plannable, Advance, DoWrite, Fire, VerifyListing;
    if Fired(s, step).Some? {
      FiredKeepsLanding(s, step);
    } else {
      if step.Progress? && step.thread < |s.threads| && s.threads[step.thread] != [] {
        AdvanceKeepsLanding(s, step.thread);
      }
      DoWriteKeepsLanding(s);
      if step.LandStart? {
        StartLandingKeepsMain(s, step.mergeBead);
      }
    }
  }

  lemma BlockersStayLanded(s: Sys, step: Step, id: BeadId)
    requires Core(s) && BlockersLanded(s.store, id)
    ensures BlockersLanded(Next(s, step).store, id)
  {
    hide Next, Core;
    var next := Next(s, step);
    CoreStep(s, step);
    NeedsFixed(s, step, id);
    forall n | n in next.store.NeedsOf(id)
      ensures n in next.store.beads && (next.store.beads[n].kind == Some(Task) ==> Landed(next.store, n))
    {
      assert n in s.store.beads;
      assert s.store.beads[n].kind == Some(Task) ==> s.store.TaskAt(n).Terminal();
    }
  }

  lemma PicksStep(s: Sys, step: Step)
    requires Core(s) && ClosedMeansLanded(s.store) && PicksAreUnblocked(s)
    ensures PicksAreUnblocked(Next(s, step))
  {
    hide Next, Core, BlockersLanded;
    var next := Next(s, step);
    PickSets(s, step);
    forall id | id in next.picked
      ensures BlockersLanded(next.store, id)
    {
      if id in s.picked {
        BlockersStayLanded(s, step, id);
      } else {
        ReadyIsUnblocked(s.store, id);
      }
    }
  }

  lemma ReadyIsUnblocked(s: Store, id: BeadId)
    requires ClosedMeansLanded(s) && s.IsReady(id, Task)
    ensures BlockersLanded(s, id)
  {
  }

  lemma {:induction false} PicksRun(start: Sys, steps: seq<Step>)
    requires Start(start) && ClosedMeansLanded(start.store) && NoTaskClosedByHand(start, steps)
    ensures ClosedMeansLanded(Exec(start, steps).store) && PicksAreUnblocked(Exec(start, steps))
  {
    hide Next;
    if steps != [] {
      var n := |steps| - 1;
      assert forall i :: 0 <= i < n ==> steps[..n][..i] == steps[..i];
      PicksRun(start, steps[..n]);
      CoreRun(start, steps[..n]);
      ClosedStep(Exec(start, steps[..n]), steps[n]);
      PicksStep(Exec(start, steps[..n]), steps[n]);
    }
  }

  /** In every run in which no task bead is closed by hand, when a worker leases a task every task it
      needs is stored as closed with a merged commit. */
  lemma ClaimsWaitForBlockers(start: Sys, steps: seq<Step>, id: BeadId)
    requires Start(start) && ClosedMeansLanded(start.store) && NoTaskClosedByHand(start, steps)
    requires id in Exec(start, steps).claimed
    ensures var s := Exec(start, steps).store;
            forall n :: n in s.NeedsOf(id) ==>
              n in s.beads && (s.beads[n].kind == Some(Task) ==> s.IsTask(n) && s.StateOf(n).Closed?)
  {
    hide Next;
    PicksRun(start, steps);
    assert BlockersLanded(Exec(start, steps).store, id);
  }

  /** A claim that is won finds every blocker that is a task stored as closed. */
  predicate ClaimIsUnblocked(s: Sys, step: Step) {
    step.TakeClaim? && step.id in s.picked && step.id in s.store.beads && !s.store.beads[step.id].status.InProgress? ==>
      BlockersLanded(s.store, step.id)
  }

  ghost predicate ClaimsAreUnblocked(start: Sys, steps: seq<Step>) {
    forall i :: 0 <= i < |steps| ==> ClaimIsUnblocked(Exec(start, steps[..i]), steps[i])
  }

  predicate ClaimedAreUnblocked(s: Sys) {
    forall id :: id in s.claimed ==> BlockersLanded(s.store, id)
  }

  /** Over a whole run claimed tasks have their blockers landed exactly when every claim that is won finds them
      landed. */
  lemma ClaimsWaitForBlockersIff(start: Sys, steps: seq<Step>)
    requires Start(start)
    ensures (forall i :: 0 <= i <= |steps| ==> ClaimedAreUnblocked(Exec(start, steps[..i])))
            <==> ClaimsAreUnblocked(start, steps)
  {
    hide Exec, ClaimedAreUnblocked, ClaimIsUnblocked, Start;
    forall i | 0 <= i <= |steps| && ClaimsAreUnblocked(start, steps)
      ensures ClaimedAreUnblocked(Exec(start, steps[..i]))
    {
      assert forall j :: 0 <= j < i ==> steps[..i][..j] == steps[..j];
      UnblockedRun(start, steps[..i]);
    }
    forall i | 0 <= i < |steps| && forall k :: 0 <= k <= |steps| ==> ClaimedAreUnblocked(Exec(start, steps[..k]))
      ensures ClaimIsUnblocked(Exec(start, steps[..i]), steps[i])
    {
      assert ClaimedAreUnblocked(Exec(start, steps[..i + 1]));
      ExecStep(start, steps, i);
      ClaimShows(Exec(start, steps[..i]), steps[i]);
    }
  }

  /** Where no task bead is closed by hand, every claim finds its blockers landed. */
  lemma NothingClosedIsUnblocked(start: Sys, steps: seq<Step>)
    requires Start(start) && ClosedMeansLanded(start.store) && NoTaskClosedByHand(start, steps)
    ensures ClaimsAreUnblocked(start, steps)
  {
    hide Next, Start, ClosesNoTask, BlockersLanded;
    forall i | 0 <= i < |steps|
      ensures ClaimIsUnblocked(Exec(start, steps[..i]), steps[i])
    {
      assert forall j :: 0 <= j < i ==> steps[..i][..j] == steps[..j];
      PicksRun(start, steps[..i]);
    }
  }

  lemma ClaimShows(s: Sys, step: Step)
    requires ClaimedAreUnblocked(Next(s, step))
    ensures ClaimIsUnblocked(s, step)
  {
    if !ClaimIsUnblocked(s, step) {
      var next := Next(s, step);
      assert step.id in next.claimed && next.store.NeedsOf(step.id) == s.store.NeedsOf(step.id);
      assert forall n :: n in s.store.beads ==> next.store.beads[n].meta == s.store.beads[n].meta;
      assert BlockersLanded(next.store, step.id);
    }
  }

  lemma {:induction false} UnblockedRun(start: Sys, steps: seq<Step>)
    requires Start(start) && ClaimsAreUnblocked(start, steps)
    ensures ClaimedAreUnblocked(Exec(start, steps))
  {
    hide Next, BlockersLanded, ClaimIsUnblocked;
    if steps != [] {
      var n := |steps| - 1;
      assert forall i :: 0 <= i < n ==> steps[..n][..i] == steps[..i];
      UnblockedRun(start, steps[..n]);
      CoreRun(start, steps[..n]);
      UnblockedStep(Exec(start, steps[..n]), steps[n]);
    }
  }

  lemma UnblockedStep(s: Sys, step: Step)
    requires Core(s) && ClaimedAreUnblocked(s) && ClaimIsUnblocked(s, step)
    ensures ClaimedAreUnblocked(Next(s, step))
  {
    hide Next, Core, BlockersLanded;
    var next := Next(s, step);
    PickSets(s, step);
    forall id | id in next.claimed
      ensures BlockersLanded(next.store, id)
    {
      if id !in s.claimed {
        assert BlockersLanded(s.store, id);
      }
      BlockersStayLanded(s, step, id);
    }
  }

  // ---- what the guarantees rest on ------------------------------------------------------------------------------

  /** While a landing goes on, the task it lands stays open for it exactly as long as no step cancels,
      escalates or closes that very task. */
  lemma LandingStaysOpenIff(s: Sys, step: Step)
    requires Core(s) && s.landing.Landing? && IsOpenWork(s) && Next(s, step).landing.Landing?
    ensures IsOpenWork(Next(s, step)) <==> Undisturbed(s, step)
  {
    hide Next, Core, IsOpenWork;
    LandingShapes(s, step);
    if Undisturbed(s, step) {
      LandingKept(s, step);
    } else {
      DisturbanceShows(s, step);
    }
  }

  lemma DisturbanceShows(s: Sys, step: Step)
    requires s.landing.Landing? && IsOpenWork(s) && !Undisturbed(s, step)
    ensures Next(s, step).landing == s.landing && !IsOpenWork(Next(s, step))
  {
    hide StartLanding, V.Verdict, Plannable, Advance, VerifyListing, Transition.EffectWrites;
  }

  /** While a verify run goes on, its task keeps the checked head (or waits for an operator, or is
      canceled) exactly as long as no operator retry of that very task is accepted. */
  lemma CheckedHeadStandsIff(s: Sys, step: Step)
    requires Core(s) && CheckedHeadStands(s) && s.checking.Checking? && Next(s, step).checking == s.checking
    ensures CheckedHeadStands(Next(s, step)) <==> LeavesCheckAlone(s, step)
  {
    if LeavesCheckAlone(s, step) {
      CheckStandsStep(s, step);
    } else {
      RetryShows(s, step);
    }
  }

  lemma RetryShows(s: Sys, step: Step)
    requires CheckedHeadStands(s) && s.checking.Checking? && step.RetryTask? && step.id == s.checking.task
    ensures CheckedHeadStands(Next(s, step)) <==> !s.store.StateOf(s.checking.task).Incident?
  {
  }

  const LIMITS := B.Limits(100, 100, 3)

  function TaskBead(state: T.State): Bead {
    Bead(Some(Task), Status.Open, "task", None, Some(Meta(0, [], LIMITS, B.NO_USAGE, 0, 0, state)), None, None, None)
  }

  const VERIFY_BEAD := Bead(Some(Verify), Status.Open, "verify", None, None, Some(VerifyMeta(1, ["t"], 60)), None, None)

  /** A ledger with verify bead 0, task 1 in `state` and a merge bead 2 for branch "b" at head [1]. */
  function Ledger3(state: T.State): Sys {
    Sys(Store(map[0 := VERIFY_BEAD, 1 := TaskBead(state), 2 := Transition.MergeBead(1, "b", [1]).Created()], map[], 3),
        [], [], {}, {}, map[], NoCheck, NoLanding, {}, multiset{})
  }

  /** Without the assumption on landings, main can move for a canceled task: the cancel falls between
      the Integrator's check and its fast-forward. */
  lemma CancelInsideALandingStillLands()
    ensures var start := Ledger3(T.Mergeable("b", [1]));
            var s := Exec(start, [LandStart(2)] + [CancelTask(1, "op")]);
            Start(start) && CanMove(s, [1]) && s.landing.task == 1 && s.store.IsTask(1) && s.store.StateOf(1).Canceled?
  {
    hide Next;
    var start := Ledger3(T.Mergeable("b", [1]));
    var one := [LandStart(2)];
    var two := one + [CancelTask(1, "op")];
    assert one[..0] == [] && two[..1] == one;
    assert Exec(start, one) == Next(start, LandStart(2));
    LandOpens(start);
    CancelKeepsLanding(Next(start, LandStart(2)));
  }

  lemma LandOpens(start: Sys)
    requires start == Ledger3(T.Mergeable("b", [1]))
    ensures Start(start)
    ensures Next(start, LandStart(2)) == start.(landing := Landing(2, 1, "b", [1], None))
  {
    hide T.Task.Apply;
  }

  lemma CancelKeepsLanding(s: Sys)
    requires s.landing == Landing(2, 1, "b", [1], None) && s.main == []
    requires s.store.IsTask(1) && s.store.StateOf(1).Mergeable?
    ensures var next := Next(s, CancelTask(1, "op"));
            && next.landing == s.landing && next.main == s.main
            && next.store.IsTask(1) && next.store.StateOf(1).Canceled?
  {
  }

  const OK_RUN := [V.Exited(V.RunOutput(Some(0), "", "", false))]

  function RetryInsideACheck(): seq<Step> {
    [CheckList, CheckStart(0, []), EscalateTask(1, T.Manual("")), RetryTask(1, ""), Pick(1), TakeClaim(1),
     ClaimLease(1, "w", 0, 60), Work(1, T.Submit("w", "b", [2], 0, 0)), CheckEnd(OK_RUN)]
  }

  /** Without the assumption on verify runs, a head that no command ever ran on can become mergeable:
      the task is escalated, retried and submitted again while the Verifier checks its old head. */
  lemma RetryInsideACheckPassesAnotherHead()
    ensures var start := Ledger3(T.InVerify("b", [1]));
            var s := Exec(start, RetryInsideACheck());
            && Start(start) && NothingMergeable(start.store)
            && s.store.IsTask(1) && s.store.StateOf(1) == T.Mergeable("b", [2]) && !Verified(s, 1, [2])
  {
    hide Next, T.Task.Apply;
    var start := Ledger3(T.InVerify("b", [1]));
    var steps := RetryInsideACheck();
    ExecUnrolls(start, steps);
    EventTable();
    var task := TaskBead(T.Open).meta.value.IntoTask(1);
    CheckOpens(start);
    var s1 := Next(Next(start, steps[0]), steps[1]);
    FireOne(s1, steps[2], 1, T.Escalate(T.Manual("")), task.(state := T.Incident(T.Manual(""))));
    var s2 := Next(s1, steps[2]);
    FireOne(s2, steps[3], 1, T.OperatorRetry(""), task);
    var s3 := Next(s2, steps[3]);
    PickAndTake(s3, 1);
    var s5 := Next(Next(s3, steps[4]), steps[5]);
    FireOne(s5, steps[6], 1, T.Claim("w", 0, 60), task.(state := T.Leased(Le.Lease("w", 0, 60))));
    var s6 := Next(s5, steps[6]);
    FireOne(s6, steps[7], 1, T.Submit("w", "b", [2], 0, 0), task.(state := T.InVerify("b", [2])));
    var s7 := Next(s6, steps[7]);
    PassCloses(s7, task.(state := T.InVerify("b", [2])));
  }

  lemma EventTable()
    ensures var t := TaskBead(T.Open).meta.value.IntoTask(1);
            var manual := T.Manual("");
            && t.(state := T.InVerify("b", [1])).Apply(T.Escalate(manual))
               == T.Accepted(t.(state := T.Incident(manual)), [T.OpenIncidentBead(1, manual)])
            && t.(state := T.Incident(manual)).Apply(T.OperatorRetry(""))
               == T.Accepted(t, [T.AppendNote(1, "incident resolved by operator: ")])
            && t.Apply(T.Claim("w", 0, 60)) == T.Accepted(t.(state := T.Leased(Le.Lease("w", 0, 60))), [])
            && t.(state := T.Leased(Le.Lease("w", 0, 60))).Apply(T.Submit("w", "b", [2], 0, 0))
               == T.Accepted(t.(state := T.InVerify("b", [2])), [])
  {
    assert "incident resolved by operator: " + "" == "incident resolved by operator: ";
  }

  lemma CheckOpens(start: Sys)
    requires start == Ledger3(T.InVerify("b", [1]))
    ensures Start(start) && NothingMergeable(start.store)
    ensures Next(Next(start, CheckList), CheckStart(0, []))
         == start.(listed := map[0 := VerifyMeta(1, ["t"], 60)], checking := Checking(1, [1], ["t"]))
  {
    hide Next;
    LedgerListing(start.store);
    CheckBegins(start, map[0 := VerifyMeta(1, ["t"], 60)]);
  }

  lemma LedgerListing(s: Store)
    requires s == Ledger3(T.InVerify("b", [1])).store
    ensures VerifyListing(s) == map[0 := VerifyMeta(1, ["t"], 60)]
  {
  }

  lemma CheckBegins(s: Sys, listed: map<BeadId, VerifyMeta>)
    requires s.checking.NoCheck? && VerifyListing(s.store) == listed == map[0 := VerifyMeta(1, ["t"], 60)]
    requires s.store.IsTask(1) && s.store.StateOf(1) == T.InVerify("b", [1])
    ensures Next(Next(s, CheckList), CheckStart(0, [])) == s.(listed := listed, checking := Checking(1, [1], ["t"]))
  {
    hide VerifyListing;
    assert [] + ["t"] == ["t"];
    assert Next(s, CheckList) == s.(listed := listed);
  }

  lemma PickAndTake(s: Sys, id: BeadId)
    requires s.store.IsTask(id) && s.store.StateOf(id).Open? && s.store.NeedsOf(id) == []
    requires s.store.beads[id].status.Open?
    ensures var next := Next(Next(s, Pick(id)), TakeClaim(id));
            && next == s.(store := next.store, picked := s.picked + {id}, claimed := s.claimed + {id})
            && next.store.IsTask(id) && next.store.TaskOf(id) == s.store.TaskOf(id)
  {
  }

  lemma FireOne(s: Sys, step: Step, id: BeadId, event: T.Event, next: T.Task)
    requires Fired(s, step) == Some((id, event)) && FiredBy(s, step) == Fired(s, step)
    requires s.store.IsTask(id) && s.store.TaskOf(id).Apply(event).Accepted?
    requires s.store.TaskOf(id).Apply(event).task == next && next.id == id
    ensures var after := Next(s, step);
            && after.store.IsTask(id) && after.store.TaskOf(id) == next
            && after.store.needs == s.store.needs && after.store.beads[id].status == s.store.beads[id].status
            && after.checking == s.checking && after.proofs == s.proofs
            && after.picked == s.picked && after.claimed == s.claimed
  {
    hide Next, Fired, T.Task.Apply;
    FiredByFires(s, step);
  }

  lemma FiredByFires(s: Sys, step: Step)
    requires FiredBy(s, step).Some?
    ensures Next(s, step) == Fire(s, FiredBy(s, step).value.0, FiredBy(s, step).value.1, [])
  {
    hide Fire;
  }

  lemma PassCloses(s: Sys, t: T.Task)
    requires s.checking == Checking(1, [1], ["t"]) && s.proofs == {}
    requires s.store.IsTask(1) && s.store.TaskOf(1) == t && t.id == 1 && t.state == T.InVerify("b", [2])
    ensures var next := Next(s, CheckEnd(OK_RUN));
            next.store.IsTask(1) && next.store.StateOf(1) == T.Mergeable("b", [2]) && !Verified(next, 1, [2])
  {
    hide V.NoteText, V.Environmental;
    assert V.Passed(["t"], OK_RUN);
    assert t.Apply(T.VerifyPassed).task.state == T.Mergeable("b", [2]);
    assert Next(s, CheckEnd(OK_RUN)).proofs == {Proof(1, [1], ["t"], OK_RUN)};
  }

  lemma ExecUnrolls(start: Sys, steps: seq<Step>)
    requires |steps| == 9
    ensures Exec(start, steps)
         == Next(Next(Next(Next(Next(Next(Next(Next(Next(start, steps[0]), steps[1]), steps[2]), steps[3]), steps[4]),
                                steps[5]), steps[6]), steps[7]), steps[8])
  {
    hide Next, Exec;
    ExecStep(start, steps, 0);
    ExecStep(start, steps, 1);
    ExecStep(start, steps, 2);
    ExecStep(start, steps, 3);
    ExecStep(start, steps, 4);
    ExecStep(start, steps, 5);
    ExecStep(start, steps, 6);
    ExecStep(start, steps, 7);
    ExecStep(start, steps, 8);
    assert steps[..9] == steps && steps[..0] == [];
    ExecNothing(start);
  }

  lemma ExecNothing(s: Sys)
    ensures Exec(s, []) == s
  {
  }
}
