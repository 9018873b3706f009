// The roles' own code is a schedule of the protocol: whatever a call of a role does to the ledger, with
// the store dying after any number of writes, some steps of that role do. Calls that follow one another
// disturb neither a landing nor a check.
module RoleRuns {
  import opened Ids
  import opened Time
  import opened Ledger
  import opened Protocol
  import opened ProtocolRuns
  import opened ApplyRuns
  import opened Rounds
  import I = Integrator
  import S = Steward
  import T = Task
  import V = Verifier
  import Transition

  datatype Role = Worker | Verifier | Integrator | Steward | Operator

  /** The steps a role takes. */
  predicate Takes(role: Role, step: Step) {
    || step.Progress?
    || match role
       case Worker => step.Pick? || step.TakeClaim? || step.ClaimLease? || step.Work? || step.WriteNote?
       case Verifier => step.CheckList? || step.CheckStart? || step.CheckEnd? || step.CheckAbort?
       case Integrator =>
         || step.LandStart? || step.RemoteAhead? || step.LandMove?
         || step.LandDone? || step.LandRejected? || step.LandAbort?
       case Steward => step.Reap? || step.EscalateTask? || step.Repair? || step.HandClose?
       case Operator => step.CancelTask? || step.RetryTask?
  }

  /** Neither the Verifier nor the Integrator is in the middle of its work. */
  predicate Idle(s: Sys) {
    s.checking.NoCheck? && s.landing.NoLanding?
  }

  /** The step breaks none of the conditions the guarantees rest on. */
  predicate Polite(s: Sys, step: Step) {
    (s.landing.Landing? ==> Undisturbed(s, step)) && LeavesCheckAlone(s, step) && ClosesNoTask(s, step)
  }

  ghost predicate AllPolite(s: Sys, steps: seq<Step>) {
    forall i :: 0 <= i < |steps| ==> Polite(Exec(s, steps[..i]), steps[i])
  }

  /** From `a`, steps of the role alone lead to the ledger `b`, closing no task bead by hand and with nothing left
      half done but waiting writes. Only the Integrator's may move main. */
  ghost predicate Leads(role: Role, a: Sys, steps: seq<Step>, b: Store) {
    && (forall step :: step in steps ==> Takes(role, step))
    && NoTaskClosedByHand(a, steps)
    && var e := Exec(a, steps);
       Idle(e) && e.store == b && (role.Integrator? || e.main == a.main)
  }

  // ---- a call that begins idle is polite --------------------------------------------------------------------

  /** Only the Integrator begins a landing and only the Verifier a check. */
  lemma {:induction false} IdleAlong(role: Role, a: Sys, steps: seq<Step>)
    requires Idle(a) && forall step :: step in steps ==> Takes(role, step)
    ensures role.Integrator? || Exec(a, steps).landing.NoLanding?
    ensures role.Verifier? || Exec(a, steps).checking.NoCheck?
  {
    hide Next;
    if steps != [] {
      var n := |steps| - 1;
      assert steps[n] in steps;
      IdleAlong(role, a, steps[..n]);
      LandingShapes(Exec(a, steps[..n]), steps[n]);
      ProofsGrow(Exec(a, steps[..n]), steps[n]);
    }
  }

  /** So the steps of a call that begins with neither in progress disturb neither. */
  lemma CallIsPolite(role: Role, a: Sys, steps: seq<Step>, b: Store)
    requires Idle(a) && Leads(role, a, steps, b)
    ensures AllPolite(a, steps)
  {
    hide Exec, Idle;
    forall i | 0 <= i < |steps|
      ensures Polite(Exec(a, steps[..i]), steps[i])
    {
      assert Takes(role, steps[i]);
      IdleAlong(role, a, steps[..i]);
    }
  }

  // ---- one run after another -----------------------------------------------------------------------------

  lemma {:induction false} ExecTogether(s: Sys, first: seq<Step>, second: seq<Step>)
    ensures Exec(s, first + second) == Exec(Exec(s, first), second)
    decreases |second|
  {
    hide Next;
    if second == [] {
      assert first + second == first;
    } else {
      var n := |second| - 1;
      ExecTogether(s, first, second[..n]);
      assert (first + second)[..|first| + n] == first + second[..n];
    }
  }

  lemma PoliteTogether(s: Sys, first: seq<Step>, second: seq<Step>)
    requires AllPolite(s, first) && AllPolite(Exec(s, first), second)
    ensures AllPolite(s, first + second)
  {
    hide Polite, Exec;
    var steps := first + second;
    forall i | 0 <= i < |steps|
      ensures Polite(Exec(s, steps[..i]), steps[i])
    {
      ExecPrefix(s, first, second, i);
    }
  }

  lemma ClosesTogether(s: Sys, first: seq<Step>, second: seq<Step>)
    requires NoTaskClosedByHand(s, first) && NoTaskClosedByHand(Exec(s, first), second)
    ensures NoTaskClosedByHand(s, first + second)
  {
    hide ClosesNoTask, Exec;
    var steps := first + second;
    forall i | 0 <= i < |steps|
      ensures ClosesNoTask(Exec(s, steps[..i]), steps[i])
    {
      ExecPrefix(s, first, second, i);
    }
  }

  /** Where two runs one after the other are at any moment. */
  lemma ExecPrefix(s: Sys, first: seq<Step>, second: seq<Step>, i: nat)
    requires i < |first| + |second|
    ensures i < |first| ==> (first + second)[i] == first[i] && Exec(s, (first + second)[..i]) == Exec(s, first[..i])
    ensures i >= |first| ==>
              && (first + second)[i] == second[i - |first|]
              && Exec(s, (first + second)[..i]) == Exec(Exec(s, first), second[..i - |first|])
  {
    hide Exec;
    if i < |first| {
      assert (first + second)[..i] == first[..i];
    } else {
      assert (first + second)[..i] == first + second[..i - |first|];
      ExecTogether(s, first, second[..i - |first|]);
    }
  }

  lemma LeadsTogether(role: Role, a: Sys, first: seq<Step>, b: Store, second: seq<Step>, c: Store)
    requires Leads(role, a, first, b) && Leads(role, Exec(a, first), second, c)
    ensures Leads(role, a, first + second, c)
  {
    hide Takes, NoTaskClosedByHand, Exec;
    ExecTogether(a, first, second);
    ClosesTogether(a, first, second);
  }

  lemma LeadsNowhere(role: Role, s: Sys)
    requires Idle(s)
    ensures Leads(role, s, [], s.store) && Exec(s, []) == s
  {
  }

  lemma LeadsByOne(role: Role, s: Sys, step: Step)
    requires Takes(role, step) && ClosesNoTask(s, step) && Idle(Next(s, step))
    requires role.Integrator? || Next(s, step).main == s.main
    ensures Leads(role, s, [step], Next(s, step).store) && Exec(s, [step]) == Next(s, step)
  {
    hide Next, Takes, ClosesNoTask;
    ExecOne(s, step);
    assert [step][..0] == [];
  }

  lemma ExecOne(s: Sys, step: Step)
    ensures Exec(s, [step]) == Next(s, step) && Exec(s, []) == s
  {
    hide Next;
    assert [step][..0] == [];
  }

  lemma NothingClosedByHand(s: Sys, steps: seq<Step>)
    requires forall step :: step in steps ==> !step.HandClose?
    ensures NoTaskClosedByHand(s, steps)
  {
    hide Exec;
  }

  // ---- firing and draining --------------------------------------------------------------------------------

  function Draining(i: nat, k: nat): seq<Step> {
    seq(k, _ => Progress(i))
  }

  lemma {:induction false} DrainIsExec(s: Sys, i: nat, k: nat)
    ensures Exec(s, Draining(i, k)) == Drain(s, i, k)
    decreases k
  {
    hide Next;
    if k > 0 {
      DrainIsExec(s, i, k - 1);
      DrainOn(s, i, k - 1, 1);
      assert Draining(i, k)[..k - 1] == Draining(i, k - 1);
      assert Drain(Drain(s, i, k - 1), i, 1) == Next(Drain(s, i, k - 1), Progress(i));
    }
  }

  /** Once `steps` fired an event from `s`, draining its thread as far as the writes go does the rest of
      the workflow and what comes after it. */
  lemma FiredLeads(role: Role, a: Sys, steps: seq<Step>, s: Sys, id: BeadId, event: T.Event, after: seq<Write>,
                   allowed: nat)
      returns (all: seq<Step>)
    requires Exec(a, steps) == Fire(s, id, event, Writes(after))
    requires (forall step :: step in steps ==> Takes(role, step)) && NoTaskClosedByHand(a, steps)
    requires Idle(s) && (role.Integrator? || s.main == a.main)
    requires allowed > 0 && s.store.IsTask(id)
    ensures Leads(role, a, all, AppliedThen(s.store, id, event, after, allowed).store)
    ensures Exec(a, all).main == s.main
    ensures forall step :: step in steps ==> step in all
    ensures forall step :: step in all && !step.Progress? ==> step in steps
  {
    hide T.Task.Apply, Next, Exec, NoTaskClosedByHand, Drain, Fire, AppliedThen, Transition.RunEffects;
    var fired := Fire(s, id, event, Writes(after));
    FireKeepsLanding(s, id, event, Writes(after));
    all := steps;
    if s.store.TaskOf(id).Apply(event).Accepted? {
      var i, r := |s.threads|, AppliedThen(s.store, id, event, after, allowed);
      ApplyEventIsARun(s, id, event, after, allowed);
      var k: nat, left: seq<Todo> :| Drain(fired, i, k) == At(fired, i, r.store, left)
          && (r.ended.Done? ==> left == []);
      all := steps + Draining(i, k);
      DrainIsExec(fired, i, k);
      ExecTogether(a, steps, Draining(i, k));
      NothingClosedByHand(fired, Draining(i, k));
      ClosesTogether(a, steps, Draining(i, k));
    } else {
      RefusedStays(s, id, event, after, allowed);
    }
  }

  lemma RefusedStays(s: Sys, id: BeadId, event: T.Event, after: seq<Write>, allowed: nat)
    requires s.store.IsTask(id) && s.store.TaskOf(id).Apply(event).Refused?
    ensures Fire(s, id, event, Writes(after)) == s && AppliedThen(s.store, id, event, after, allowed).store == s.store
  {
    hide T.Task.Apply, Transition.RunEffects;
  }

  /** A step that fires an event does what the workflow does with it, wherever the store dies. */
  lemma StepLeads(role: Role, s: Sys, step: Step, id: BeadId, event: T.Event, allowed: nat) returns (steps: seq<Step>)
    requires Takes(role, step) && ClosesNoTask(s, step) && Idle(s)
    requires Next(s, step) == Fire(s, id, event, [])
    ensures Leads(role, s, steps, Transition.Applied(s.store, id, event, allowed).store)
  {
    hide Next, Takes, ClosesNoTask, Fire, T.Task.Apply, Transition.RunEffects;
    if allowed == 0 || !s.store.IsTask(id) {
      steps := [];
      LeadsNowhere(role, s);
      NothingApplied(s.store, id, event, allowed);
    } else {
      ExecOne(s, step);
      assert Writes([]) == [];
      OneCloses(s, step);
      steps := FiredLeads(role, s, [step], s, id, event, [], allowed);
      NothingAfter(s.store, id, event, allowed);
    }
  }

  lemma OneCloses(s: Sys, step: Step)
    requires ClosesNoTask(s, step)
    ensures NoTaskClosedByHand(s, [step])
  {
    hide ClosesNoTask, Next;
    assert [step][..0] == [];
  }

  lemma NothingApplied(s: Store, id: BeadId, event: T.Event, allowed: nat)
    requires allowed == 0 || !s.IsTask(id)
    ensures Transition.Applied(s, id, event, allowed).store == s
  {
    hide T.Task.Apply, Transition.RunEffects;
  }

  lemma NothingAfter(s: Store, id: BeadId, event: T.Event, allowed: nat)
    ensures AppliedThen(s, id, event, [], allowed).store == Transition.Applied(s, id, event, allowed).store
  {
    hide Transition.Applied;
  }

  // ---- the Verifier ---------------------------------------------------------------------------------------

  /** `results` is what running the commands of the verify bead can give, if its task awaits a verdict. */
  predicate CanResult(s: Store, vb: BeadId, prepare: seq<string>, results: Option<seq<V.RunResult>>) {
    && s.IsActive(vb, Verify) && s.beads[vb].verify.Some?
    && var meta := s.beads[vb].verify.value;
       s.IsTask(meta.task) && s.StateOf(meta.task).InVerify? && results.Some? ==>
         V.IsRunOf(prepare + meta.commands, results.value)
  }

  /** What `VerifyOne` does to the ledger for the verify bead: nothing unless the task awaits a verdict, and then
      nothing if it aborts; otherwise the verdict on the results. */
  function VerifiedOne(s: Store, vb: BeadId, prepare: seq<string>, results: Option<seq<V.RunResult>>,
                       allowed: nat): Store
    requires CanResult(s, vb, prepare, results)
  {
    var meta := s.beads[vb].verify.value;
    if !s.IsTask(meta.task) || !s.StateOf(meta.task).InVerify? || results.None? then s
    else Transition.Applied(s, meta.task, V.Verdict(prepare + meta.commands, results.value), allowed).store
  }

  /** `VerifyOne` lists, starts a check, ends it with the same results and drains. */
  lemma VerifyOneIsARun(s: Sys, vb: BeadId, prepare: seq<string>, results: Option<seq<V.RunResult>>, allowed: nat)
      returns (steps: seq<Step>)
    requires Idle(s) && CanResult(s.store, vb, prepare, results)
    ensures Leads(Verifier, s, steps, VerifiedOne(s.store, vb, prepare, results, allowed))
  {
    hide T.Task.Apply, V.Verdict, Fire, Transition.Applied, Exec;
    var meta := s.store.beads[vb].verify.value;
    var commands := prepare + meta.commands;
    if !s.store.IsTask(meta.task) || !s.store.StateOf(meta.task).InVerify? || results.None? || allowed == 0 {
      steps := [];
      LeadsNowhere(Verifier, s);
      if s.store.IsTask(meta.task) && s.store.StateOf(meta.task).InVerify? && results.Some? {
        NothingApplied(s.store, meta.task, V.Verdict(commands, results.value), allowed);
      }
    } else {
      var event := V.Verdict(commands, results.value);
      var three := [CheckList, CheckStart(vb, prepare), CheckEnd(results.value)];
      var head, listed := s.store.StateOf(meta.task).head, VerifyListing(s.store);
      var proof := Proof(meta.task, head, commands, results.value);
      var ended := s.(listed := listed, proofs := s.proofs + {proof});
      CheckRuns(s, vb, prepare, results.value);
      ExecThree(s, three[0], three[1], three[2]);
      NothingClosedByHand(s, three);
      assert Writes([]) == [];
      steps := FiredLeads(Verifier, s, three, ended, meta.task, event, [], allowed);
      NothingAfter(s.store, meta.task, event, allowed);
    }
  }

  /** The steps of a check that ends. */
  lemma CheckRuns(s: Sys, vb: BeadId, prepare: seq<string>, results: seq<V.RunResult>)
    requires Idle(s) && s.store.IsActive(vb, Verify) && s.store.beads[vb].verify.Some?
    requires var task := s.store.beads[vb].verify.value.task; s.store.IsTask(task) && s.store.StateOf(task).InVerify?
    requires V.IsRunOf(prepare + s.store.beads[vb].verify.value.commands, results)
    ensures var meta := s.store.beads[vb].verify.value;
            var commands := prepare + meta.commands;
            var proof := Proof(meta.task, s.store.StateOf(meta.task).head, commands, results);
            Next(Next(Next(s, CheckList), CheckStart(vb, prepare)), CheckEnd(results))
            == Fire(s.(listed := VerifyListing(s.store), proofs := s.proofs + {proof}), meta.task,
                    V.Verdict(commands, results), [])
  {
    hide T.Task.Apply, V.Verdict, Fire;
    var meta := s.store.beads[vb].verify.value;
    var listing := s.(listed := VerifyListing(s.store));
    var checking := listing.(checking := Checking(meta.task, s.store.StateOf(meta.task).head, prepare + meta.commands));
    assert Next(s, CheckList) == listing;
    assert Next(listing, CheckStart(vb, prepare)) == checking;
    var proof := Proof(meta.task, s.store.StateOf(meta.task).head, prepare + meta.commands, results);
    assert checking.(checking := NoCheck, proofs := s.proofs + {proof})
        == listing.(proofs := s.proofs + {proof});
  }

  lemma ExecTwo(s: Sys, first: Step, second: Step)
    ensures Exec(s, [first, second]) == Next(Next(s, first), second)
  {
    hide Next;
    ExecOne(s, first);
    assert [first, second][..1] == [first];
  }

  lemma ExecThree(s: Sys, first: Step, second: Step, third: Step)
    ensures Exec(s, [first, second, third]) == Next(Next(Next(s, first), second), third)
  {
    hide Next;
    ExecTwo(s, first, second);
    assert [first, second, third][..2] == [first, second];
  }

  // ---- the Integrator -------------------------------------------------------------------------------------

  /** `IntegrateOne` closes a stale merge bead, or lands: the sync takes main from where it was to `base`, the
      fast-forward from there to `to`, and what the ledger is told is told by the landing that ends there. */
  lemma IntegrateOneIsARun(s: Sys, mb: BeadId, attempt: I.Attempt, base: Sha, to: Sha, p: I.Pass)
      returns (steps: seq<Step>)
    requires Idle(s) && p.store == s.store
    requires mb in s.store.beads && s.store.beads[mb].kind == Some(Merge) && s.store.beads[mb].merge.Some?
    requires Ancestor(s.main, base) && Ancestor(base, to)
    requires (attempt.Lands? ==> attempt.head == to) && (attempt.Rejects? ==> to == base)
    requires !I.StartsLanding(s.store, s.store.beads[mb].merge.value) ==> to == s.main
    ensures Leads(Integrator, s, steps, I.OneDone(p, mb, s.store.beads[mb].merge.value, attempt).store)
    ensures Exec(s, steps).main == to
    ensures forall synced :: RemoteAhead(synced) in steps ==> synced == base
    ensures to != base ==> LandMove(to) in steps
  {
    hide I.Recorded, Next, Exec;
    var meta := s.store.beads[mb].merge.value;
    if I.StartsLanding(s.store, meta) {
      LandStarts(s, mb, base);
      var synced := s.(main := base, landing := Landing(mb, meta.task, meta.branch, meta.head, None));
      if attempt.Fails? || p.left == 0 {
        steps := LandingGivenUp(s, mb, base, to, synced);
        RecordsNothing(s.store, mb, meta.task, attempt);
      } else if attempt.Lands? {
        steps := LandingDone(s, mb, base, to, p.left, synced);
      } else {
        steps := LandingRejected(s, mb, base, attempt.detail, p.left, synced);
      }
    } else {
      steps := StaleClosed(s, mb, meta, p.left);
      StaleDone(p, mb, meta, attempt);
    }
  }

  /** Main is in sync and the landing under way. */
  ghost predicate HasStarted(s: Sys, mb: BeadId, base: Sha, synced: Sys) {
    && Exec(s, [LandStart(mb), RemoteAhead(base)]) == synced
    && AboutToMove(synced) && synced.landing.mergeBead == mb && synced.checking == s.checking
    && synced == s.(main := base, landing := synced.landing) && s.store.IsTask(synced.landing.task)
  }

  lemma LandStarts(s: Sys, mb: BeadId, base: Sha)
    requires Idle(s) && Ancestor(s.main, base)
    requires mb in s.store.beads && s.store.beads[mb].kind == Some(Merge) && s.store.beads[mb].merge.Some?
    requires I.StartsLanding(s.store, s.store.beads[mb].merge.value)
    ensures var meta := s.store.beads[mb].merge.value;
            HasStarted(s, mb, base, s.(main := base, landing := Landing(mb, meta.task, meta.branch, meta.head, None)))
  {
    hide Exec;
    ExecTwo(s, LandStart(mb), RemoteAhead(base));
  }

  /** With no write left nothing is recorded, whatever the landing did. */
  lemma RecordsNothing(s: Store, mb: BeadId, task: BeadId, attempt: I.Attempt)
    ensures attempt.Lands? ==> I.Recorded(s, mb, task, T.Merged(attempt.head), 0).store == s
    ensures attempt.Rejects? ==> I.Recorded(s, mb, task, T.MergeFailed(attempt.detail), 0).store == s
  {
    hide T.Task.Apply, Transition.RunEffects;
  }

  lemma LandingGivenUp(s: Sys, mb: BeadId, base: Sha, to: Sha, synced: Sys) returns (steps: seq<Step>)
    requires Idle(s) && HasStarted(s, mb, base, synced) && Ancestor(base, to)
    ensures Leads(Integrator, s, steps, s.store) && Exec(s, steps).main == to
    ensures forall x :: RemoteAhead(x) in steps ==> x == base
    ensures to != base ==> LandMove(to) in steps
  {
    hide Exec;
    var more := if to == base then [LandAbort] else [LandMove(to), LandAbort];
    ExecOne(synced, LandAbort);
    ExecTwo(synced, LandMove(to), LandAbort);
    steps := [LandStart(mb), RemoteAhead(base)] + more;
    ExecTogether(s, [LandStart(mb), RemoteAhead(base)], more);
    NothingClosedByHand(s, steps);
  }

  lemma RecordedIsAppliedThen(s: Store, mb: BeadId, task: BeadId, event: T.Event, allowed: nat)
    ensures I.Recorded(s, mb, task, event, allowed) == AppliedThen(s, task, event, [Close(mb)], allowed)
  {
    hide Transition.Applied;
    var applied := Transition.Applied(s, task, event, allowed);
    PerformCons(applied.store, Close(mb), [], applied.left);
  }

  lemma LandingDone(s: Sys, mb: BeadId, base: Sha, to: Sha, allowed: nat, synced: Sys) returns (steps: seq<Step>)
    requires Idle(s) && HasStarted(s, mb, base, synced) && Ancestor(base, to) && allowed > 0
    ensures Leads(Integrator, s, steps, I.Recorded(s.store, mb, synced.landing.task, T.Merged(to), allowed).store)
    ensures Exec(s, steps).main == to
    ensures forall x :: RemoteAhead(x) in steps ==> x == base
    ensures LandMove(to) in steps
  {
    hide Exec, Fire, I.Recorded, Leads;
    var task := synced.landing.task;
    var forwarded := s.(main := to);
    var landing := [LandStart(mb), RemoteAhead(base)] + [LandMove(to), LandDone];
    ExecTogether(s, [LandStart(mb), RemoteAhead(base)], [LandMove(to), LandDone]);
    ExecTwo(synced, LandMove(to), LandDone);
    NothingClosedByHand(s, landing);
    assert Writes([Close(mb)]) == [Do(Close(mb))];
    steps := FiredLeads(Integrator, s, landing, forwarded, task, T.Merged(to), [Close(mb)], allowed);
    RecordedIsAppliedThen(s.store, mb, task, T.Merged(to), allowed);
  }

  lemma LandingRejected(s: Sys, mb: BeadId, base: Sha, detail: string, allowed: nat, synced: Sys)
      returns (steps: seq<Step>)
    requires Idle(s) && HasStarted(s, mb, base, synced) && allowed > 0
    ensures Leads(Integrator, s, steps, I.Recorded(s.store, mb, synced.landing.task, T.MergeFailed(detail),
                                                   allowed).store)
    ensures Exec(s, steps).main == base
    ensures forall x :: RemoteAhead(x) in steps ==> x == base
  {
    hide Exec, Fire, I.Recorded, Leads;
    var task := synced.landing.task;
    var behind := s.(main := base);
    var landing := [LandStart(mb), RemoteAhead(base)] + [LandRejected(detail)];
    ExecTogether(s, [LandStart(mb), RemoteAhead(base)], [LandRejected(detail)]);
    ExecOne(synced, LandRejected(detail));
    NothingClosedByHand(s, landing);
    assert Writes([Close(mb)]) == [Do(Close(mb))];
    steps := FiredLeads(Integrator, s, landing, behind, task, T.MergeFailed(detail), [Close(mb)], allowed);
    RecordedIsAppliedThen(s.store, mb, task, T.MergeFailed(detail), allowed);
  }

  /** What a merge bead with nothing to land comes to. */
  function StaleStore(s: Store, mb: BeadId, meta: MergeMeta, allowed: nat): Store {
    if meta.task in s.beads && (s.beads[meta.task].status.Closed? || s.IsTask(meta.task))
    then PerformOne(s, Close(mb), allowed).store
    else s
  }

  lemma StaleDone(p: I.Pass, mb: BeadId, meta: MergeMeta, attempt: I.Attempt)
    requires !I.StartsLanding(p.store, meta)
    ensures I.OneDone(p, mb, meta, attempt).store == StaleStore(p.store, mb, meta, p.left)
  {
    hide I.Recorded;
  }

  lemma StaleClosed(s: Sys, mb: BeadId, meta: MergeMeta, allowed: nat) returns (steps: seq<Step>)
    requires Idle(s) && mb in s.store.beads && s.store.beads[mb].kind == Some(Merge)
             && s.store.beads[mb].merge == Some(meta)
    requires !I.StartsLanding(s.store, meta)
    ensures Leads(Integrator, s, steps, StaleStore(s.store, mb, meta, allowed)) && Exec(s, steps).main == s.main
    ensures forall x :: RemoteAhead(x) !in steps
  {
    hide Exec;
    if allowed == 0 || StaleStore(s.store, mb, meta, allowed) == s.store {
      steps := [];
      LeadsNowhere(Integrator, s);
    } else {
      var i := |s.threads|;
      var waiting := s.(threads := s.threads + [[Do(Close(mb))]]);
      steps := [LandStart(mb), Progress(i)];
      ExecTwo(s, LandStart(mb), Progress(i));
      NothingClosedByHand(s, steps);
      assert Next(s, LandStart(mb)) == waiting;
      assert Next(waiting, Progress(i)) == Advance(waiting, i);
    }
  }

  // ---- the Steward ----------------------------------------------------------------------------------------

  lemma TaskSweptIsARun(s: Sys, w: S.Sweeping, id: BeadId, bead: Bead, now: Timestamp) returns (steps: seq<Step>)
    requires Idle(s) && w.store == s.store
    ensures Leads(Steward, s, steps, S.TaskSwept(w, id, bead, now).store)
  {
    hide Leads, S.Decide, Transition.Applied, Fire;
    match S.Decide(bead, now)
    case LetBe =>
      steps := [];
      LeadsNowhere(Steward, s);
    case Reap(at) =>
      assert Next(s, Reap(id, at)) == Fire(s, id, T.LeaseExpired(at), []);
      steps := StepLeads(Steward, s, Reap(id, at), id, T.LeaseExpired(at), w.left);
    case EscalateOver(exceeded) =>
      var reason := T.BudgetSpent(exceeded);
      assert Next(s, EscalateTask(id, reason)) == Fire(s, id, T.Escalate(reason), []);
      steps := StepLeads(Steward, s, EscalateTask(id, reason), id, T.Escalate(reason), w.left);
  }

  lemma {:induction false} TasksSweptIsARun(s: Sys, w: S.Sweeping, seen: Store, listed: seq<BeadId>, now: Timestamp)
      returns (steps: seq<Step>)
    requires Idle(s) && w.store == s.store && forall id :: id in listed ==> id in seen.beads
    ensures Leads(Steward, s, steps, S.TasksSwept(w, seen, listed, now).store)
    decreases |listed|
  {
    hide NoTaskClosedByHand, Takes, Exec, S.TaskSwept;
    if listed == [] {
      steps := [];
      LeadsNowhere(Steward, s);
    } else {
      var next := S.TaskSwept(w, listed[0], seen.beads[listed[0]], now);
      var first := TaskSweptIsARun(s, w, listed[0], seen.beads[listed[0]], now);
      var rest := TasksSweptIsARun(Exec(s, first), next, seen, listed[1..], now);
      LeadsTogether(Steward, s, first, next.store, rest, S.TasksSwept(next, seen, listed[1..], now).store);
      steps := first + rest;
    }
  }

  lemma MergeRepairedIsARun(s: Sys, w: S.Sweeping, seen: Store, merges: seq<BeadId>, id: BeadId)
      returns (steps: seq<Step>)
    requires Idle(s) && w.store == s.store && id in seen.beads
    ensures Leads(Steward, s, steps, S.MergeRepaired(w, seen, merges, id).store)
  {
    hide Leads, S.HasMerge, Transition.MergeBead;
    steps := [];
    LeadsNowhere(Steward, s);
    var r := S.MergeRepaired(w, seen, merges, id);
    if r.store != s.store {
      var state := seen.beads[id].meta.value.state;
      var repair := Repair(id, state.branch, state.head);
      steps := [repair];
      LeadsByOne(Steward, s, repair);
    }
  }

  lemma {:induction false} MergesRepairedIsARun(s: Sys, w: S.Sweeping, seen: Store, merges: seq<BeadId>,
                                                listed: seq<BeadId>)
      returns (steps: seq<Step>)
    requires Idle(s) && w.store == s.store && forall id :: id in listed ==> id in seen.beads
    ensures Leads(Steward, s, steps, S.MergesRepaired(w, seen, merges, listed).store)
    decreases |listed|
  {
    hide NoTaskClosedByHand, Takes, Exec, S.MergeRepaired;
    if listed == [] {
      steps := [];
      LeadsNowhere(Steward, s);
    } else {
      var next := S.MergeRepaired(w, seen, merges, listed[0]);
      var first := MergeRepairedIsARun(s, w, seen, merges, listed[0]);
      var rest := MergesRepairedIsARun(Exec(s, first), next, seen, merges, listed[1..]);
      LeadsTogether(Steward, s, first, next.store, rest, S.MergesRepaired(next, seen, merges, listed[1..]).store);
      steps := first + rest;
    }
  }

  /** A write closes a bead that is no task. */
  predicate ClosesOther(s: Store, w: Write) {
    w.Close? && w.id in s.beads && s.beads[w.id].kind != Some(Task)
  }

  lemma {:induction false} ClosesAreARun(s: Sys, writes: seq<Write>, allowed: nat) returns (steps: seq<Step>)
    requires Idle(s) && forall w :: w in writes ==> ClosesOther(s.store, w)
    ensures Leads(Steward, s, steps, Perform(s.store, writes, allowed).store)
    decreases |writes|
  {
    hide NoTaskClosedByHand, Takes, Exec, Next;
    if writes == [] || allowed == 0 {
      steps := [];
      LeadsNowhere(Steward, s);
    } else {
      assert ClosesOther(s.store, writes[0]);
      var close := HandClose(writes[0].id);
      var next := Next(s, close);
      LeadsOnClose(s, close);
      assert forall w :: w in writes[1..] ==> w in writes;
      var rest := ClosesAreARun(next, writes[1..], allowed - 1);
      LeadsTogether(Steward, s, [close], next.store, rest, Perform(next.store, writes[1..], allowed - 1).store);
      steps := [close] + rest;
    }
  }

  lemma LeadsOnClose(s: Sys, close: Step)
    requires Idle(s) && close.HandClose? && ClosesOther(s.store, Close(close.id))
    ensures Leads(Steward, s, [close], Next(s, close).store) && Exec(s, [close]) == Next(s, close)
    ensures Idle(Next(s, close)) && Written(s.store, Close(close.id)) == Some(Next(s, close).store)
    ensures forall w :: ClosesOther(s.store, w) ==> ClosesOther(Next(s, close).store, w)
  {
    LeadsByOne(Steward, s, close);
  }

  lemma EpicSweptIsARun(s: Sys, w: S.Sweeping, epic: BeadId) returns (steps: seq<Step>)
    requires Idle(s) && w.store == s.store && epic in s.store.beads && s.store.beads[epic].kind == Some(Epic)
    ensures Leads(Steward, s, steps, S.EpicSwept(w, epic).store)
  {
    hide Leads, S.HasWork, S.WorkDone;
    var children := ChildrenOf(s.store, epic);
    if S.HasWork(s.store, children) && S.WorkDone(s.store, children) {
      ContextClosesWithin(s.store, children);
      steps := ClosesAreARun(s, S.ContextCloses(s.store, children) + [Close(epic)], w.left);
    } else {
      steps := [];
      LeadsNowhere(Steward, s);
    }
  }

  lemma {:induction false} EpicsSweptIsARun(s: Sys, w: S.Sweeping, listed: seq<BeadId>) returns (steps: seq<Step>)
    requires Idle(s) && w.store == s.store && w.store.Valid()
    requires forall e :: e in listed ==> e in w.store.beads && w.store.beads[e].kind == Some(Epic)
    ensures Leads(Steward, s, steps, S.EpicsSwept(w, listed).store)
    decreases |listed|
  {
    hide NoTaskClosedByHand, Takes, Exec, S.EpicSwept;
    if listed == [] {
      steps := [];
      LeadsNowhere(Steward, s);
    } else {
      var next := S.EpicSwept(w, listed[0]);
      EpicSweptFacts(w, listed[0]);
      var first := EpicSweptIsARun(s, w, listed[0]);
      var rest := EpicsSweptIsARun(Exec(s, first), next, listed[1..]);
      LeadsTogether(Steward, s, first, next.store, rest, S.EpicsSwept(next, listed[1..]).store);
      steps := first + rest;
    }
  }

  /** A whole sweep reaps and escalates, repairs, and closes beads that are no tasks. */
  lemma SweepIsARun(s: Sys, now: Timestamp, allowed: nat) returns (steps: seq<Step>)
    requires Idle(s) && s.store.Valid()
    ensures Leads(Steward, s, steps, S.Swept(s.store, now, allowed).store)
  {
    hide NoTaskClosedByHand, Takes, Exec, S.TasksSwept, S.MergesRepaired, S.EpicsSwept;
    var start := S.Sweeping(s.store, allowed, S.NO_REPORT);
    var reaped := S.Reaped(s.store, now, allowed);
    var repaired := S.Repaired(reaped);
    ListingIsExact(s.store, Task);
    var first := TasksSweptIsARun(s, start, s.store, Listing(s.store, Task), now);
    ListingIsExact(reaped.store, Task);
    var second := MergesRepairedIsARun(Exec(s, first), reaped, reaped.store, Listing(reaped.store, Merge),
                                       Listing(reaped.store, Task));
    LeadsTogether(Steward, s, first, reaped.store, second, repaired.store);
    RepairedFacts(reaped);
    ListingIsExact(repaired.store, Epic);
    var third := EpicsSweptIsARun(Exec(s, first + second), repaired, Listing(repaired.store, Epic));
    LeadsTogether(Steward, s, first + second, repaired.store, third, S.Swept(s.store, now, allowed).store);
    steps := first + second + third;
  }

  // ---- the Worker -----------------------------------------------------------------------------------------

  /** The ledger's claim on a claimable task. */
  lemma ClaimIsARun(s: Sys, id: BeadId) returns (steps: seq<Step>)
    requires Idle(s) && s.store.IsReady(id, Task) && s.store.IsTask(id) && s.store.StateOf(id).Open?
    ensures Leads(Worker, s, steps, Claimed(s.store, id))
  {
    hide Exec;
    steps := [Pick(id), TakeClaim(id)];
    ExecTwo(s, Pick(id), TakeClaim(id));
    NothingClosedByHand(s, steps);
  }

  /** The claim that was won, then the lease. */
  lemma LeaseIsARun(s: Sys, id: BeadId, holder: AgentId, now: Timestamp, ttl: Duration, allowed: nat)
      returns (steps: seq<Step>)
    requires Idle(s) && s.store.IsReady(id, Task) && s.store.IsTask(id) && s.store.StateOf(id).Open?
    requires !s.store.beads[id].status.InProgress?
    ensures Leads(Worker, s, steps, Transition.Applied(Claimed(s.store, id), id, T.Claim(holder, now, ttl),
                                                       allowed).store)
  {
    hide Exec, Fire, Transition.Applied;
    var claim := T.Claim(holder, now, ttl);
    var taken := s.(store := Claimed(s.store, id), picked := s.picked + {id}, claimed := s.claimed + {id});
    if allowed == 0 {
      steps := ClaimIsARun(s, id);
      NothingApplied(taken.store, id, claim, allowed);
    } else {
      var three := [Pick(id), TakeClaim(id), ClaimLease(id, holder, now, ttl)];
      ExecThree(s, Pick(id), TakeClaim(id), ClaimLease(id, holder, now, ttl));
      NothingClosedByHand(s, three);
      assert Writes([]) == [];
      steps := FiredLeads(Worker, s, three, taken, id, claim, [], allowed);
      NothingAfter(taken.store, id, claim, allowed);
    }
  }

  /** One more event through the workflow. */
  lemma WorkIsARun(s: Sys, before: seq<Step>, b: Store, id: BeadId, event: T.Event, allowed: nat)
      returns (steps: seq<Step>)
    requires Leads(Worker, s, before, b) && IsWorkerEvent(event)
    ensures Leads(Worker, s, steps, Transition.Applied(b, id, event, allowed).store)
  {
    hide NoTaskClosedByHand, Exec, Transition.Applied, Fire;
    var now := Exec(s, before);
    assert Next(now, Work(id, event)) == Fire(now, id, event, []);
    var more := StepLeads(Worker, now, Work(id, event), id, event, allowed);
    LeadsTogether(Worker, s, before, b, more, Transition.Applied(b, id, event, allowed).store);
    steps := before + more;
  }

  lemma NoteIsARun(s: Sys, before: seq<Step>, b: Store, id: BeadId, text: string, allowed: nat)
      returns (steps: seq<Step>)
    requires Leads(Worker, s, before, b)
    ensures Leads(Worker, s, steps, PerformOne(b, Note(id, text), allowed).store)
  {
    hide NoTaskClosedByHand, Exec;
    steps := before;
    if allowed > 0 {
      var now := Exec(s, before);
      var note := WriteNote(id, text);
      LeadsByOne(Worker, now, note);
      LeadsTogether(Worker, s, before, b, [note], Next(now, note).store);
      steps := before + [note];
    }
  }

  // ---- the operator ---------------------------------------------------------------------------------------

  /** A cancel or a retry that falls between the calls of the roles. */
  lemma OperatorIsARun(s: Sys, id: BeadId, event: T.Event, allowed: nat) returns (steps: seq<Step>)
    requires Idle(s) && (event.Cancel? || event.OperatorRetry?)
    ensures Leads(Operator, s, steps, Transition.Applied(s.store, id, event, allowed).store)
  {
    hide Leads, Transition.Applied, Fire;
    var step := if event.Cancel? then CancelTask(id, event.actor) else RetryTask(id, event.note);
    assert Next(s, step) == Fire(s, id, event, []);
    steps := StepLeads(Operator, s, step, id, event, allowed);
  }
}
