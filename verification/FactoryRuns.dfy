// The factory at work: the roles' own code, call after call, each cut off anywhere by a dying store, and
// operators acting in between. Nothing is asked of the order of the calls: the guarantees of whole runs hold.
module FactoryRuns {
  import opened Ids
  import opened Time
  import opened Ledger
  import opened Protocol
  import opened Safety
  import opened ProtocolRuns
  import opened PlannedRuns
  import opened RoleRuns
  import I = Integrator
  import Planner
  import S = Steward
  import T = Task
  import Transition
  import V = Verifier
  import W = Worker

  // ---- calls ----------------------------------------------------------------------------------------------

  /** One call of a role, or one event of an operator, with what the outside world answers it and the writes it
      gets done. */
  datatype Call =
    | Verification(verifyBead: BeadId, prepare: seq<string>, results: Option<seq<V.RunResult>>, allowed: nat)
    | Integration(mergeBead: BeadId, attempt: I.Attempt, base: Sha, to: Sha, allowed: nat)
    | Sweep(now: Timestamp, allowed: nat)
    | Session(agent: AgentId, ttl: Duration, branch: Branch, world: W.World, allowed: nat)
    | Operation(id: BeadId, event: T.Event, allowed: nat)

  /** The ledger and main. */
  datatype Site = Site(store: Store, main: Sha)

  /** The bead is there to call the role on, and the answers are ones the outside world can give: results of the
      very commands, a landing that syncs main forward and then lands what descends from it. */
  predicate Sensible(s: Site, call: Call) {
    match call
    case Verification(vb, prepare, results, _) => CanResult(s.store, vb, prepare, results)
    case Integration(mb, attempt, base, to, _) =>
      && mb in s.store.beads && s.store.beads[mb].kind == Some(Merge) && s.store.beads[mb].merge.Some?
      && Ancestor(s.main, base) && Ancestor(base, to)
      && (attempt.Lands? ==> attempt.head == to) && (attempt.Rejects? ==> to == base)
      && (!I.StartsLanding(s.store, s.store.beads[mb].merge.value) ==> to == s.main)
    case Sweep(_, _) => true
    case Session(_, _, _, _, _) => true
    case Operation(_, event, _) => event.Cancel? || event.OperatorRetry?
  }

  /** What a call leaves behind: for each role what the contract of its code says. */
  ghost function After(s: Site, call: Call): Site
    requires s.store.Valid()
  {
    if !Sensible(s, call) then s
    else
      match call
      case Verification(vb, prepare, results, allowed) =>
        s.(store := VerifiedOne(s.store, vb, prepare, results, allowed))
      case Integration(mb, attempt, _, to, allowed) =>
        var p := I.Pass(s.store, allowed, I.NO_REPORT);
        Site(I.OneDone(p, mb, s.store.beads[mb].merge.value, attempt).store, to)
      case Sweep(now, allowed) => s.(store := S.Swept(s.store, now, allowed).store)
      case Session(agent, ttl, branch, world, allowed) =>
        s.(store := W.Worked(s.store, agent, ttl, branch, world, allowed).store)
      case Operation(id, event, allowed) => s.(store := Transition.Applied(s.store, id, event, allowed).store)
  }

  /** The sites after each of the calls, from the one they start from. */
  ghost predicate Unfolds(sites: seq<Site>, calls: seq<Call>) {
    && |sites| == |calls| + 1
    && forall i :: 0 <= i < |calls| ==> sites[i].store.Valid() && sites[i + 1] == After(sites[i], calls[i])
  }

  // ---- calls are runs -------------------------------------------------------------------------------------

  /** The steps of one call. */
  datatype RoleRun = RoleRun(role: Role, steps: seq<Step>)

  function AllSteps(runs: seq<RoleRun>): seq<Step> {
    if runs == [] then [] else AllSteps(runs[..|runs| - 1]) + runs[|runs| - 1].steps
  }

  ghost predicate IsRun(s: Sys, run: RoleRun) {
    Leads(run.role, s, run.steps, Exec(s, run.steps).store)
  }

  /** Every run is one of its role from where the runs before it ended. */
  ghost predicate OneAtATime(start: Sys, runs: seq<RoleRun>) {
    forall i :: 0 <= i < |runs| ==> IsRun(Exec(start, AllSteps(runs[..i])), runs[i])
  }

  ghost predicate At(s: Sys, site: Site) {
    s.store == site.store && s.main == site.main
  }

  lemma CallIsARun(s: Sys, call: Call) returns (run: RoleRun)
    requires Idle(s) && s.store.Valid()
    ensures IsRun(s, run) && Idle(Exec(s, run.steps))
    ensures At(Exec(s, run.steps), After(Site(s.store, s.main), call))
  {
    hide Exec, I.OneDone, S.Swept, W.Worked, Transition.Applied, VerifiedOne, CanResult, NoTaskClosedByHand, Takes;
    run := RoleRun(Operator, []);
    LeadsNowhere(Operator, s);
    if Sensible(Site(s.store, s.main), call) {
      match call
      case Verification(vb, prepare, results, allowed) =>
        var steps := VerifyOneIsARun(s, vb, prepare, results, allowed);
        run := RoleRun(Verifier, steps);
      case Integration(mb, attempt, base, to, allowed) =>
        var steps := IntegrateOneIsARun(s, mb, attempt, base, to, I.Pass(s.store, allowed, I.NO_REPORT));
        run := RoleRun(Integrator, steps);
      case Sweep(now, allowed) =>
        var steps := SweepIsARun(s, now, allowed);
        run := RoleRun(Steward, steps);
      case Session(agent, ttl, branch, world, allowed) =>
        var steps := W.WorkOnceIsARun(s, agent, ttl, branch, world, allowed);
        run := RoleRun(Worker, steps);
      case Operation(id, event, allowed) =>
        var steps := OperatorIsARun(s, id, event, allowed);
        run := RoleRun(Operator, steps);
    }
  }

  /** Any sequence of calls whatever is a sequence of such runs, and leads to the same ledgers and main. */
  lemma {:induction false} CallsAreRuns(start: Sys, sites: seq<Site>, calls: seq<Call>) returns (runs: seq<RoleRun>)
    requires Idle(start) && Unfolds(sites, calls) && At(start, sites[0])
    ensures |runs| == |calls| && OneAtATime(start, runs) && Idle(Exec(start, AllSteps(runs)))
    ensures At(Exec(start, AllSteps(runs)), sites[|calls|])
    decreases |calls|
  {
    hide Exec, After, IsRun, Idle, At;
    if calls == [] {
      runs := [];
      ExecNothing(start);
    } else {
      var n := |calls| - 1;
      var before := CallsAreRuns(start, sites[..n + 1], calls[..n]);
      var now := Exec(start, AllSteps(before));
      AtIsSite(now, sites[n]);
      var run := CallIsARun(now, calls[n]);
      runs := before + [run];
      assert runs[..n] == before;
      assert forall i :: 0 <= i < n ==> runs[i] == before[i] && runs[..i] == before[..i];
      ExecTogether(start, AllSteps(before), run.steps);
    }
  }

  lemma AtIsSite(s: Sys, site: Site)
    requires At(s, site)
    ensures Site(s.store, s.main) == site
  {
  }

  /** The ledgers from a valid one on are valid, so every sequence of calls unfolds. */
  lemma {:induction false} CallsUnfold(start: Sys, calls: seq<Call>) returns (sites: seq<Site>)
    requires Start(start)
    ensures Unfolds(sites, calls) && sites[0] == Site(start.store, start.main) && sites[|calls|].store.Valid()
    decreases |calls|
  {
    hide After, Exec, At, Core;
    if calls == [] {
      sites := [Site(start.store, start.main)];
    } else {
      var n := |calls| - 1;
      var before := CallsUnfold(start, calls[..n]);
      sites := before + [After(before[n], calls[n])];
      assert forall i :: 0 <= i <= n ==> sites[i] == before[i];
      AtStart(start);
      var runs := CallsAreRuns(start, sites, calls);
      CoreRun(start, AllSteps(runs));
      CoreValid(Exec(start, AllSteps(runs)));
      AtValid(Exec(start, AllSteps(runs)), sites[|calls|]);
    }
  }

  lemma AtStart(s: Sys)
    ensures At(s, Site(s.store, s.main))
  {
  }

  lemma AtValid(s: Sys, site: Site)
    requires At(s, site) && s.store.Valid()
    ensures site.store.Valid()
  {
  }

  // ---- calls are polite -----------------------------------------------------------------------------------

  lemma {:induction false} RunsArePolite(start: Sys, runs: seq<RoleRun>)
    requires Idle(start) && OneAtATime(start, runs)
    ensures AllPolite(start, AllSteps(runs)) && Idle(Exec(start, AllSteps(runs)))
    ensures forall step :: step in AllSteps(runs) ==> !step.PlanVerify?
  {
    hide Exec, AllPolite, Leads, IsRun, Idle;
    if runs == [] {
      NothingIsPolite(start);
    } else {
      var n := |runs| - 1;
      assert forall i :: 0 <= i < n ==> runs[..n][i] == runs[i] && runs[..n][..i] == runs[..i];
      RunsArePolite(start, runs[..n]);
      var before := AllSteps(runs[..n]);
      RunIsPolite(Exec(start, before), runs[n]);
      PoliteTogether(start, before, runs[n].steps);
      ExecTogether(start, before, runs[n].steps);
    }
  }

  lemma NothingIsPolite(s: Sys)
    ensures AllPolite(s, []) && Exec(s, []) == s
  {
  }

  lemma RunIsPolite(s: Sys, run: RoleRun)
    requires Idle(s) && IsRun(s, run)
    ensures AllPolite(s, run.steps) && Idle(Exec(s, run.steps))
    ensures forall step :: step in run.steps ==> !step.PlanVerify?
  {
    hide Exec, AllPolite, Idle, NoTaskClosedByHand;
    CallIsPolite(run.role, s, run.steps, Exec(s, run.steps).store);
  }

  /** Polite steps meet the conditions of the whole-run theorems, however far they have got. */
  lemma PolitePrefixes(start: Sys, steps: seq<Step>, k: nat)
    requires AllPolite(start, steps) && k <= |steps|
    ensures AllPolite(start, steps[..k])
    ensures LandingsLeftAlone(start, steps[..k]) && ChecksLeftAlone(start, steps[..k])
            && NoTaskClosedByHand(start, steps[..k])
  {
    hide Exec;
    forall i | 0 <= i < k
      ensures Polite(Exec(start, steps[..k][..i]), steps[..k][i])
    {
      assert steps[..k][..i] == steps[..i];
    }
  }

  /** Under polite steps what is being landed stays open to the end of its landing, not only until main moves. */
  lemma {:induction false} LandingsStayOpen(start: Sys, steps: seq<Step>)
    requires Start(start) && AllPolite(start, steps)
    ensures var s := Exec(start, steps); s.landing.Landing? ==> IsOpenWork(s)
  {
    hide Next, IsOpenWork, Undisturbed;
    if steps != [] {
      var n := |steps| - 1;
      PolitePrefixes(start, steps, n);
      LandingsStayOpen(start, steps[..n]);
      CoreRun(start, steps[..n]);
      var s := Exec(start, steps[..n]);
      LandingShapes(s, steps[n]);
      if s.landing.NoLanding? && steps[n].LandStart? {
        StartLandingIsOpen(s, steps[n].mergeBead);
        StartLandingMoves(s, steps[n].mergeBead);
      } else if Exec(start, steps).landing.Landing? {
        LandingKept(s, steps[n]);
      }
    }
  }

  // ---- what the factory keeps -----------------------------------------------------------------------------

  /** At any moment of any sequence of runs, in the middle of one too: what is being landed is an open task that
      is stored as mergeable with just that branch and head; no task is merged twice; every mergeable head passed
      the commands of its verify bead, in order; and what is claimed has all its blockers landed. */
  lemma FactoryKeepsItsPromises(start: Sys, runs: seq<RoleRun>, k: nat)
    requires Start(start) && ClosedMeansLanded(start.store) && OneAtATime(start, runs)
    requires k <= |AllSteps(runs)|
    ensures KeepsItsPromises(start, AllSteps(runs)[..k])
  {
    hide Exec, MergeableHeadsPassed, BlockersLanded, AllPolite, IsOpenWork, PassIsSound;
    RunsArePolite(start, runs);
    PolitePrefixes(start, AllSteps(runs), k);
    var steps := AllSteps(runs)[..k];
    LandingsStayOpen(start, steps);
    MergedOnceAndTerminalForever(start, steps, 0);
    ChecksLeftAloneAreSound(start, steps);
    EveryMergeableHeadWasVerified(start, steps);
    PicksRun(start, steps);
  }

  ghost predicate KeepsItsPromises(start: Sys, steps: seq<Step>) {
    var s := Exec(start, steps);
    && (s.landing.Landing? ==> IsOpenWork(s))
    && (forall t :: s.merged[t] <= 1)
    && MergeableHeadsPassed(start, steps)
    && (forall id :: id in s.claimed ==> BlockersLanded(s.store, id))
    && ClosedMeansLanded(s.store)
  }

  /** Any sequence of calls of the roles' own code and of operator events, each cut off anywhere, from any ledger
      the runs may start from: it is a run of the protocol to the same ledger and the same main, which keeps the
      promises at every moment. */
  lemma CallsKeepThePromises(start: Sys, calls: seq<Call>) returns (sites: seq<Site>, steps: seq<Step>)
    requires Start(start) && ClosedMeansLanded(start.store)
    ensures Unfolds(sites, calls) && sites[0] == Site(start.store, start.main)
    ensures At(Exec(start, steps), sites[|calls|])
    ensures forall k :: 0 <= k <= |steps| ==> KeepsItsPromises(start, steps[..k])
  {
    hide After, Exec, KeepsItsPromises, OneAtATime, At, ClosedMeansLanded;
    sites := CallsUnfold(start, calls);
    AtStart(start);
    StartIsIdle(start);
    var runs := CallsAreRuns(start, sites, calls);
    steps := AllSteps(runs);
    forall k | 0 <= k <= |steps|
      ensures KeepsItsPromises(start, steps[..k])
    {
      FactoryKeepsItsPromises(start, runs, k);
    }
  }

  lemma StartIsIdle(s: Sys)
    requires Start(s)
    ensures Idle(s)
  {
  }

  /** From a plan written into a ledger, completely or not: after any sequence of runs every mergeable task of
      the plan has a head on which all verify commands of its plan entry ran in order and succeeded, and every
      claimed one has everything its plan entry needs landed. */
  lemma FactoryFollowsThePlan(
      c: Planner.Context, made: seq<BeadId>, linked: nat, start: Sys, runs: seq<RoleRun>, i: nat)
    requires Planner.Made(c, start.store, made, linked) && i < |made|
    requires ClosedMeansLanded(c.before) && VerifyBeadsApart(c.before) && NamesExistingTasks(c.before)
    requires start == Sys(start.store, start.main, [], {}, {}, map[], NoCheck, NoLanding, {}, multiset{})
    requires OneAtATime(start, runs)
    ensures Follows(c, made, start, AllSteps(runs), i)
  {
    hide Exec, Planner.Made, PassedItsPlan, NeedLanded, AllPolite, OneAtATime, AllSteps, PassIsSound;
    hide ClaimsAreUnblocked;
    var steps := AllSteps(runs);
    RunsArePolite(start, runs);
    PolitePrefixes(start, steps, |steps|);
    assert steps[..|steps|] == steps;
    PlannedLedger(c, start.store, made, linked);
    ChecksLeftAloneAreSound(start, steps);
    var s := Exec(start, steps);
    if s.store.IsTask(made[i]) && s.store.StateOf(made[i]).Mergeable? {
      PlannedHeadsPassedTheirCommands(c, made, linked, start, steps, i);
    }
    NothingClosedIsUnblocked(start, steps);
    if made[i] in s.claimed {
      ClaimedTasksHaveTheirNeeds(c, made, linked, start, steps, i);
    }
  }

  /** Task `i` of the plan is verified and claimed as its plan entry says. */
  ghost predicate Follows(c: Planner.Context, made: seq<BeadId>, start: Sys, steps: seq<Step>, i: nat)
    requires i < |made| <= |c.tasks|
  {
    var s := Exec(start, steps);
    && (s.store.IsTask(made[i]) && s.store.StateOf(made[i]).Mergeable? ==>
          PassedItsPlan(start, steps, made[i], s.store.StateOf(made[i]).head, c.tasks[i].verify))
    && (made[i] in s.claimed ==> forall n :: n in c.tasks[i].needs ==> NeedLanded(c.tasks, made, s.store, n))
  }

  /** The same of the calls themselves. */
  lemma CallsFollowThePlan(
      c: Planner.Context, made: seq<BeadId>, linked: nat, start: Sys, calls: seq<Call>)
      returns (sites: seq<Site>, steps: seq<Step>)
    requires Planner.Made(c, start.store, made, linked) && |made| <= |c.tasks|
    requires ClosedMeansLanded(c.before) && VerifyBeadsApart(c.before) && NamesExistingTasks(c.before)
    requires start == Sys(start.store, start.main, [], {}, {}, map[], NoCheck, NoLanding, {}, multiset{})
    ensures Unfolds(sites, calls) && sites[0] == Site(start.store, start.main)
    ensures At(Exec(start, steps), sites[|calls|])
    ensures forall i: nat :: i < |made| ==> Follows(c, made, start, steps, i)
  {
    hide After, Exec, OneAtATime, At, Follows, Planner.Made, ClosedMeansLanded, VerifyBeadsApart, NamesExistingTasks;
    PlannedLedger(c, start.store, made, linked);
    sites := CallsUnfold(start, calls);
    AtStart(start);
    StartIsIdle(start);
    var runs := CallsAreRuns(start, sites, calls);
    steps := AllSteps(runs);
    forall i: nat | i < |made|
      ensures Follows(c, made, start, steps, i)
    {
      FactoryFollowsThePlan(c, made, linked, start, runs, i);
    }
  }
}
