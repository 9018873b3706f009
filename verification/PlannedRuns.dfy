// From a planned ledger on: a task is claimed only after every task its plan entry needs has landed.
module PlannedRuns {
  import opened Ids
  import opened Ledger
  import opened Protocol
  import opened Safety
  import opened ProtocolRuns
  import B = Budget
  import Planner
  import P = Plan
  import T = Task
  import V = Verifier

  /** A plan written into a ledger, completely or not, keeps what the runs start from. */
  lemma PlannedLedger(c: Planner.Context, s: Store, made: seq<BeadId>, linked: nat)
    requires Planner.Made(c, s, made, linked) && ClosedMeansLanded(c.before) && VerifyBeadsApart(c.before)
    ensures s.Valid() && ClosedMeansLanded(s) && VerifyBeadsApart(s)
  {
    hide Planner.EdgesOf;
    PlannedStart(c, s, made, linked);
    forall x | x in s.beads && s.beads[x].kind == Some(Task) && x !in c.before.beads
      ensures exists i :: 0 <= i < |made| && made[i] == x && Planner.TaskMade(c, s, made, i)
    {
      assert x in made;
    }
    forall x | x in s.beads && s.beads[x].kind == Some(Task) && s.beads[x].status.Closed?
      ensures Landed(s, x)
    {
      if x in c.before.beads {
        assert Landed(c.before, x);
      }
    }
  }

  /** The blockers of a task never change. */
  lemma {:induction false} NeedsAlong(start: Sys, steps: seq<Step>, id: BeadId)
    requires Start(start) && id in start.store.beads && start.store.beads[id].kind == Some(Task)
    ensures var s := Exec(start, steps).store;
            id in s.beads && s.beads[id].kind == Some(Task) && s.NeedsOf(id) == start.store.NeedsOf(id)
  {
    hide Next;
    if steps != [] {
      var n := |steps| - 1;
      NeedsAlong(start, steps[..n], id);
      CoreRun(start, steps[..n]);
      NeedsFixed(Exec(start, steps[..n]), steps[n], id);
      CoreStep(Exec(start, steps[..n]), steps[n]);
    }
  }

  /** The bead of the task with key `k` is stored as landed. */
  ghost predicate NeedLanded(tasks: seq<P.PlannedTask>, made: seq<BeadId>, s: Store, k: P.TaskKey) {
    exists j :: 0 <= j < |made| && j < |tasks| && tasks[j].key == k && s.IsTask(made[j]) && s.StateOf(made[j]).Closed?
  }

  /** Whatever the plan, wherever its writing stopped, and however the roles, crashes and operators
      interleave from there, as long as claims that are won find their blockers landed, as they do where no task
      bead is closed by hand: when a worker has claimed a task, every task its plan entry needs is stored as
      closed with a merged commit. */
  lemma ClaimedTasksHaveTheirNeeds(
      c: Planner.Context, made: seq<BeadId>, linked: nat, start: Sys, steps: seq<Step>, i: nat)
    requires Planner.Made(c, start.store, made, linked) && VerifyBeadsApart(c.before)
    requires start == Sys(start.store, start.main, [], {}, {}, map[], NoCheck, NoLanding, {}, multiset{})
    requires ClaimsAreUnblocked(start, steps)
    requires i < |made| && made[i] in Exec(start, steps).claimed
    ensures forall k :: k in c.tasks[i].needs ==> NeedLanded(c.tasks, made, Exec(start, steps).store, k)
  {
    hide Next, ClaimIsUnblocked;
    PlannedStart(c, start.store, made, linked);
    assert Planner.TaskMade(c, start.store, made, i);
    NeedsAlong(start, steps, made[i]);
    UnblockedRun(start, steps);
    var s := Exec(start, steps).store;
    assert BlockersLanded(s, made[i]);
    forall k | k in c.tasks[i].needs
      ensures NeedLanded(c.tasks, made, s, k)
    {
      var m :| 0 <= m < |c.tasks[i].needs| && c.tasks[i].needs[m] == k;
      var bead := start.store.NeedsOf(made[i])[m];
      assert Planner.IsBeadOf(c.tasks, made, i, k, bead);
      var j :| 0 <= j < i && c.tasks[j].key == k && made[j] == bead;
      assert Planner.TaskMade(c, start.store, made, j);
      NeedsAlong(start, steps, made[j]);
      assert bead in s.NeedsOf(made[i]);
      assert s.IsTask(made[j]) && s.StateOf(made[j]).Closed?;
    }
  }

  // ---- what was verified of a planned task --------------------------------------------------------------------------

  /** One step changes verify data only by writing it: everything else keeps what it finds and gives new beads
      none. */
  lemma StepVerifyData(s: Sys, step: Step, x: BeadId)
    requires Core(s) && x in Next(s, step).store.beads && Next(s, step).store.beads[x].verify.Some?
    ensures var verify := Next(s, step).store.beads[x].verify;
            || (x in s.store.beads && s.store.beads[x].verify == verify)
            || (step.PlanVerify? && step.id == x && verify == Some(step.verify))
  {
    hide Next, Core, Advance, V.Verdict;
    if Fired(s, step).Some? {
      FiredKeepsVerify(s, step, x);
    } else if step.LandStart? {
      LandStartSame(s, step);
    } else if step.Progress? {
      if step.thread < |s.threads| && s.threads[step.thread] != [] {
        ProgressAdvances(s, step);
        AdvanceKeepsVerify(s, step.thread, x);
      } else {
        NoProgress(s, step);
      }
    } else {
      UnfiredStore(s, step);
    }
  }

  lemma AdvanceKeepsVerify(s: Sys, i: nat, x: BeadId)
    requires Core(s) && i < |s.threads| && s.threads[i] != []
    requires x in Advance(s, i).store.beads && Advance(s, i).store.beads[x].verify.Some?
    ensures x in s.store.beads && s.store.beads[x].verify == Advance(s, i).store.beads[x].verify
  {
    hide Advance, Core;
    AdvanceWrites(s, i);
  }

  lemma FireKeepsVerify(s: Sys, id: BeadId, event: T.Event, after: seq<Todo>, x: BeadId)
    ensures var next := Fire(s, id, event, after).store;
            x in next.beads ==> x in s.store.beads && next.beads[x].verify == s.store.beads[x].verify
  {
    hide T.Task.Apply;
  }

  lemma FiredKeepsVerify(s: Sys, step: Step, x: BeadId)
    requires Fired(s, step).Some? && x in Next(s, step).store.beads
    ensures x in s.store.beads && Next(s, step).store.beads[x].verify == s.store.beads[x].verify
  {
    hide Next, Fired, Fire;
    var from, after := FiredAs(s, step);
    FireKeepsVerify(from, Fired(s, step).value.0, Fired(s, step).value.1, after, x);
  }

  /** Nobody writes verify data for these tasks again. */
  ghost predicate VerifyDataLeftAlone(steps: seq<Step>, tasks: seq<BeadId>) {
    forall i :: 0 <= i < |steps| && steps[i].PlanVerify? ==> steps[i].verify.task !in tasks
  }

  /** Verify data naming one of `tasks` is that of the start. */
  lemma {:induction false} VerifyDataAlong(start: Sys, steps: seq<Step>, tasks: seq<BeadId>, x: BeadId)
    requires Start(start) && VerifyDataLeftAlone(steps, tasks)
    requires var s := Exec(start, steps).store;
             x in s.beads && s.beads[x].verify.Some? && s.beads[x].verify.value.task in tasks
    ensures x in start.store.beads && start.store.beads[x].verify == Exec(start, steps).store.beads[x].verify
  {
    hide Next;
    if steps != [] {
      var n := |steps| - 1;
      CoreRun(start, steps[..n]);
      StepVerifyData(Exec(start, steps[..n]), steps[n], x);
      VerifyDataAlong(start, steps[..n], tasks, x);
    }
  }

  /** A verify bead names a bead that exists. */
  ghost predicate NamesExistingTasks(s: Store) {
    forall x :: x in s.beads && s.beads[x].verify.Some? ==> s.beads[x].verify.value.task < s.next
  }

  /** Some prepare commands and then exactly the verify commands of the plan entry ran on `head`, in order,
      and every one succeeded. */
  ghost predicate PassedItsPlan(start: Sys, steps: seq<Step>, task: BeadId, head: Sha, planned: seq<string>) {
    exists p, prepare: seq<string> ::
      && p in Exec(start, steps).proofs && p.task == task && p.head == head && p.commands == prepare + planned
      && AllRanAndSucceeded(p)
  }

  /** Whatever the plan, wherever its writing stopped, and however the roles, crashes and operators interleave
      from there, as long as nobody rewrites the verify data of the plan's tasks and passes are sound: the head of
      every planned task that is mergeable is one on which all verify commands of its plan entry ran in order and
      succeeded. */
  lemma PlannedHeadsPassedTheirCommands(
      c: Planner.Context, made: seq<BeadId>, linked: nat, start: Sys, steps: seq<Step>, i: nat)
    requires Planner.Made(c, start.store, made, linked) && VerifyBeadsApart(c.before) && NamesExistingTasks(c.before)
    requires start == Sys(start.store, start.main, [], {}, {}, map[], NoCheck, NoLanding, {}, multiset{})
    requires PassesAreSound(start, steps) && VerifyDataLeftAlone(steps, made)
    requires var s := Exec(start, steps).store;
             i < |made| && s.IsTask(made[i]) && s.StateOf(made[i]).Mergeable?
    ensures PassedItsPlan(start, steps, made[i], Exec(start, steps).store.StateOf(made[i]).head, c.tasks[i].verify)
  {
    hide Next, Lists, Awaits, PassIsSound;
    var head := Exec(start, steps).store.StateOf(made[i]).head;
    PlannedStart(c, start.store, made, linked);
    EveryMergeableHeadWasVerified(start, steps);
    assert Planner.TaskMade(c, start.store, made, i);
    assert HeadPassed(start, steps, made[i], head);
    var p :| p in Exec(start, steps).proofs && p.task == made[i] && p.head == head && AllRanAndSucceeded(p)
             && WasOrdered(start, steps, made[i], head, p.commands);
    var k: nat, m: nat :| IsOrder(start, steps, k, m, made[i], head, p.commands);
    OrderOfPlannedTask(c, made, linked, start, steps, i, k, m, head, p.commands);
  }

  lemma PlannedStart(c: Planner.Context, s: Store, made: seq<BeadId>, linked: nat)
    requires Planner.Made(c, s, made, linked) && VerifyBeadsApart(c.before)
    ensures s.Valid() && VerifyBeadsApart(s)
  {
    hide Planner.EdgesOf;
    forall x | x in s.beads && s.beads[x].kind == Some(Task) && x !in c.before.beads
      ensures exists i :: 0 <= i < |made| && made[i] == x && Planner.TaskMade(c, s, made, i)
    {
      assert x in made;
    }
  }

  /** The verify bead a check of a planned task read its commands off holds those of its plan entry. */
  lemma OrderOfPlannedTask(
      c: Planner.Context, made: seq<BeadId>, linked: nat, start: Sys, steps: seq<Step>, i: nat, k: nat, m: nat,
      head: Sha, commands: seq<string>)
    requires Planner.Made(c, start.store, made, linked) && NamesExistingTasks(c.before) && Start(start)
    requires VerifyDataLeftAlone(steps, made) && i < |made|
    requires IsOrder(start, steps, k, m, made[i], head, commands)
    ensures commands == steps[m].prepare + c.tasks[i].verify
  {
    hide Next;
    var vb := steps[m].verifyBead;
    VerifyDataAlong(start, steps[..k], made, vb);
    assert Planner.TaskMade(c, start.store, made, i);
    assert vb !in c.before.beads;
    assert Planner.HasOwnVerifyData(c, start.store, made, vb);
    var j :| 0 <= j < |made| && Planner.IsVerifyData(c, start.store.beads[vb].verify.value, made, j);
    assert made[j] == made[i];
  }

  // ---- planning is a run --------------------------------------------------------------------------------------------

  function PlanningSteps(epic: BeadId, base: Sha, t: P.PlannedTask, needs: seq<BeadId>, verify: BeadId): seq<Step> {
    var writes := Planner.TaskWrites(epic, base, t, needs, verify);
    [PlanBead(writes[0].bead), PlanBead(writes[1].bead), PlanVerify(verify, writes[2].verify),
     PlanNeeds(verify, verify + 1)]
  }

  /** What the Planner writes for one task, wherever the store dies, is the first so many of four planning steps. */
  lemma PlanningIsARun(s: Sys, epic: BeadId, base: Sha, t: P.PlannedTask, needs: seq<BeadId>, allowed: nat)
      returns (k: nat)
    requires s.store.Valid()
    ensures k <= 4
    ensures Exec(s, PlanningSteps(epic, base, t, needs, s.store.next)[..k])
         == s.(store := Perform(s.store, Planner.TaskWrites(epic, base, t, needs, s.store.next), allowed).store)
  {
    hide Exec, Perform;
    var steps := PlanningSteps(epic, base, t, needs, s.store.next);
    var writes := Planner.TaskWrites(epic, base, t, needs, s.store.next);
    k := if allowed < 4 then allowed else 4;
    Planner.FourWrites(s.store, writes, allowed);
    PlanningExec(s, epic, base, t, needs);
    assert steps[..0] == [];
    ExecNothing(s);
  }

  /** Each of the four steps performs its write. */
  lemma PlanningExec(s: Sys, epic: BeadId, base: Sha, t: P.PlannedTask, needs: seq<BeadId>)
    requires s.store.Valid()
    ensures var steps := PlanningSteps(epic, base, t, needs, s.store.next);
            var writes := Planner.TaskWrites(epic, base, t, needs, s.store.next);
            && Written(s.store, writes[0]).Some? && Exec(s, steps[..1]) == DoWrite(s, writes[0])
            && Written(Exec(s, steps[..1]).store, writes[1]).Some?
            && Exec(s, steps[..2]) == DoWrite(Exec(s, steps[..1]), writes[1])
            && Written(Exec(s, steps[..2]).store, writes[2]).Some?
            && Exec(s, steps[..3]) == DoWrite(Exec(s, steps[..2]), writes[2])
            && Written(Exec(s, steps[..3]).store, writes[3]).Some?
            && Exec(s, steps[..4]) == DoWrite(Exec(s, steps[..3]), writes[3])
  {
    hide Exec, Next, Written;
    var verify := s.store.next;
    var steps := PlanningSteps(epic, base, t, needs, verify);
    var writes := Planner.TaskWrites(epic, base, t, needs, verify);
    ExecStep(s, steps, 0);
    ExecStep(s, steps, 1);
    ExecStep(s, steps, 2);
    ExecStep(s, steps, 3);
    assert steps[..0] == [];
    ExecNothing(s);
    FirstPlanned(s, writes[0].bead);
    var one := DoWrite(s, writes[0]);
    SecondPlanned(one, verify, writes[1].bead, t.budget, base);
    var two := DoWrite(one, writes[1]);
    LinkPlanned(two, verify, writes[2].verify);
    LinkPlanned(DoWrite(two, writes[2]), verify, writes[2].verify);
  }

  lemma FirstPlanned(s: Sys, bead: NewBead)
    requires s.store.Valid() && bead.kind == Verify && bead.meta.None?
    ensures Written(s.store, Create(bead)).Some? && Next(s, PlanBead(bead)) == DoWrite(s, Create(bead))
    ensures var one := DoWrite(s, Create(bead)).store;
            one.Valid() && one.next == s.store.next + 1 && s.store.next in one.beads
                && one.beads[s.store.next].kind == Some(Verify)
  {
  }

  lemma SecondPlanned(s: Sys, verify: BeadId, bead: NewBead, budget: B.Limits, base: Sha)
    requires s.store.Valid() && verify in s.store.beads && s.store.beads[verify].kind == Some(Verify)
    requires bead.kind == Task && bead.meta == Some(Meta(verify, base, budget, B.NO_USAGE, 0, 0, T.Open))
    ensures Written(s.store, Create(bead)).Some? && Next(s, PlanBead(bead)) == DoWrite(s, Create(bead))
    ensures var two := DoWrite(s, Create(bead)).store; verify in two.beads && two.beads[verify].kind == Some(Verify)
  {
  }

  lemma LinkPlanned(s: Sys, verify: BeadId, meta: VerifyMeta)
    requires verify in s.store.beads && s.store.beads[verify].kind == Some(Verify)
    ensures Written(s.store, SetVerify(verify, meta)).Some?
    ensures Next(s, PlanVerify(verify, meta)) == DoWrite(s, SetVerify(verify, meta))
    ensures var r := DoWrite(s, SetVerify(verify, meta)).store;
            verify in r.beads && r.beads[verify].kind == Some(Verify)
    ensures forall blocker :: Written(s.store, AddNeeds(verify, blocker)).Some?
                              && Next(s, PlanNeeds(verify, blocker)) == DoWrite(s, AddNeeds(verify, blocker))
  {
  }
}
