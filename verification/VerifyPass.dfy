// One pass of the Verifier over all verify beads.
module VerifyPass {
  import opened Ids
  import opened Ledger
  import opened Verifier
  import F = Frames
  import T = Task
  import Transition

  datatype Report = Report(passed: nat, failed: nat, skipped: nat, errors: nat)

  predicate AwaitsVerdict(s: Store, id: BeadId) {
    s.IsTask(id) && s.StateOf(id).InVerify?
  }

  /** No task came to await a verdict, and verify beads still name the tasks they named. */
  ghost predicate Judging(a: Store, b: Store) {
    && b.Valid() && a.next <= b.next
    && (forall x :: x in a.beads ==> x in b.beads)
    && forall x :: AwaitsVerdict(b, x) ==> AwaitsVerdict(a, x) && b.TaskOf(x) == a.TaskOf(x)
  }

  lemma VerdictEndsTheWait(t: T.Task, event: T.Event)
    requires event.VerifyPassed? || event.VerifyBlocked? || event.VerifyFailed?
    requires t.Apply(event).Accepted?
    ensures !t.Apply(event).task.state.InVerify?
  {
  }

  lemma VerdictKind(commands: seq<string>, results: seq<RunResult>)
    requires |results| <= |commands|
    ensures var e := Verdict(commands, results); e.VerifyPassed? || e.VerifyBlocked? || e.VerifyFailed?
  {
  }

  /** A verdict ends the wait of its own task and starts nobody's, wherever the store dies. */
  lemma VerdictJudges(s: Store, id: BeadId, event: T.Event, allowed: nat)
    requires s.Valid() && AwaitsVerdict(s, id)
    requires event.VerifyPassed? || event.VerifyBlocked? || event.VerifyFailed?
    ensures var r := Transition.Applied(s, id, event, allowed);
            Judging(s, r.store) && (r.ended.Done? ==> !AwaitsVerdict(r.store, id))
  {
    hide T.Task.Apply, Transition.Applied;
    F.AppliedFrame(s, id, event, allowed);
    F.AppliedIsAllOrNothing(s, id, event, allowed);
    if s.TaskOf(id).Apply(event).Accepted? {
      VerdictEndsTheWait(s.TaskOf(id), event);
    }
  }

  lemma JudgingTogether(a: Store, b: Store, c: Store)
    requires Judging(a, b) && Judging(b, c)
    ensures Judging(a, c)
  {
  }

  /** How a verify bead came out: passed, failed or blocked, nothing to verify, or an error. */
  datatype Count = Passing | Failing | Nothing | Trouble

  predicate CountsAs(o: Outcome, c: Count) {
    match c
    case Passing => o.Reported? && o.event.VerifyPassed?
    case Failing => o.Reported? && !o.event.VerifyPassed?
    case Nothing => o.NotAwaiting?
    case Trouble => o.CouldNot? || o.Aborted?
  }

  function Number(outcomes: seq<Outcome>, c: Count): nat {
    if outcomes == [] then 0
    else Number(outcomes[..|outcomes| - 1], c) + if CountsAs(outcomes[|outcomes| - 1], c) then 1 else 0
  }

  /** The outcome of a bead with these verify data is the verdict on some run of its commands, if it is a verdict, and
      given up only for the rig. */
  ghost predicate IsOutcomeOf(verify: Option<VerifyMeta>, prepare: seq<string>, rig: Rig, o: Outcome) {
    && (o.Reported? ==>
          && verify.Some?
          && exists results :: IsRunOf(prepare + verify.value.commands, results)
                               && o.event == Verdict(prepare + verify.value.commands, results))
    && (o.Aborted? ==> !(rig.checksOut && rig.removes))
  }

  /** Verify every task an active verify bead names and that awaits a verdict. Every bead is counted once, as it
      came out; nothing comes to await a verdict, and after a pass without errors none of those tasks still does. */
  method VerifyOnce(store: BeadStore, runner: Runner, prepare: seq<string>, rig: Rig)
      returns (report: Report, ghost outcomes: seq<Outcome>)
    requires store.Valid()
    modifies store, runner
    ensures store.Valid() && Judging(old(store.View()), store.View())
    ensures |outcomes| == |Listing(old(store.View()), Verify)|
    ensures forall k :: 0 <= k < |outcomes| ==>
              var v := Listing(old(store.View()), Verify)[k];
              v in old(store.View()).beads && IsOutcomeOf(old(store.View()).beads[v].verify, prepare, rig, outcomes[k])
    ensures report.passed == Number(outcomes, Passing) && report.failed == Number(outcomes, Failing)
    ensures report.skipped == Number(outcomes, Nothing) && report.errors == Number(outcomes, Trouble)
    ensures report.passed + report.failed + report.skipped + report.errors == |Listing(old(store.View()), Verify)|
    ensures report.errors == 0 ==>
              forall v :: old(store.View()).IsActive(v, Verify) && old(store.View()).beads[v].verify.Some? ==>
                !AwaitsVerdict(store.View(), old(store.View()).beads[v].verify.value.task)
  {
    hide Transition.Applied, Verdict, T.Task.Apply, Judging, IsOutcomeOf, Number;
    ghost var s, ids := store.View(), Listing(store.View(), Verify);
    ListingIsExact(s, Verify);
    report, outcomes := Report(0, 0, 0, 0), [];
    NothingCounted();
    JudgingSelf(s);
    var listed := store.ListActive(Verify);
    for i := 0 to |listed|
      invariant store.Valid() && Judging(s, store.View())
      invariant |outcomes| == i && forall k :: 0 <= k < i ==> IsOutcomeOf(listed[k].1.verify, prepare, rig, outcomes[k])
      invariant Reports(report, outcomes)
      invariant report.passed + report.failed + report.skipped + report.errors == i
      invariant report.errors == 0 ==>
                  forall k :: 0 <= k < i && listed[k].1.verify.Some? ==>
                    !AwaitsVerdict(store.View(), listed[k].1.verify.value.task)
    {
      var bead := listed[i].1;
      var came := NotAwaiting;
      if bead.verify.None? {
        NothingIsOutcome(bead.verify, prepare, rig);
      } else {
        ghost var before := store.View();
        came := VerifyListed(store, runner, bead.verify.value, prepare, rig);
        JudgingTogether(s, before, store.View());
        StillJudged(before, store.View());
      }
      NumbersOn(report, outcomes, came);
      report := Counted(report, came);
      outcomes := outcomes + [came];
    }
    forall v | s.IsActive(v, Verify) && s.beads[v].verify.Some?
      ensures report.errors == 0 ==> !AwaitsVerdict(store.View(), s.beads[v].verify.value.task)
    {
      assert v in ids;
      var k :| 0 <= k < |ids| && ids[k] == v;
      assert listed[k].1 == s.beads[v];
    }
  }

  predicate Reports(report: Report, outcomes: seq<Outcome>) {
    && report.passed == Number(outcomes, Passing) && report.failed == Number(outcomes, Failing)
    && report.skipped == Number(outcomes, Nothing) && report.errors == Number(outcomes, Trouble)
  }

  lemma NothingCounted()
    ensures Reports(Report(0, 0, 0, 0), [])
  {
  }

  lemma NumbersOn(report: Report, outcomes: seq<Outcome>, o: Outcome)
    requires Reports(report, outcomes)
    ensures Reports(Counted(report, o), outcomes + [o])
  {
    assert (outcomes + [o])[..|outcomes|] == outcomes;
  }

  /** One bead of the pass. */
  method VerifyListed(store: BeadStore, runner: Runner, meta: VerifyMeta, prepare: seq<string>, rig: Rig)
      returns (came: Outcome)
    requires store.Valid()
    modifies store, runner
    ensures store.Valid() && Judging(old(store.View()), store.View()) && IsOutcomeOf(Some(meta), prepare, rig, came)
    ensures !came.CouldNot? && !came.Aborted? ==> !AwaitsVerdict(store.View(), meta.task)
  {
    hide Transition.Applied, Verdict, T.Task.Apply, Judging, IsOutcomeOf;
    ghost var before, left := store.View(), store.writesAllowed;
    ghost var results;
    came, results := VerifyOne(store, runner, meta, prepare, rig);
    Judged(before, store.View(), meta, prepare, left, store.writesAllowed, came, results);
    OutcomeOf(meta, prepare, rig, came, results);
  }

  lemma NothingIsOutcome(verify: Option<VerifyMeta>, prepare: seq<string>, rig: Rig)
    ensures IsOutcomeOf(verify, prepare, rig, NotAwaiting)
  {
  }

  lemma OutcomeOf(meta: VerifyMeta, prepare: seq<string>, rig: Rig, o: Outcome, results: seq<RunResult>)
    requires o.Reported? ==>
               IsRunOf(prepare + meta.commands, results) && o.event == Verdict(prepare + meta.commands, results)
    requires o.Aborted? ==> !(rig.checksOut && rig.removes)
    ensures IsOutcomeOf(Some(meta), prepare, rig, o)
  {
  }

  function Counted(r: Report, outcome: Outcome): Report {
    match outcome
    case Reported(event) => if event.VerifyPassed? then r.(passed := r.passed + 1) else r.(failed := r.failed + 1)
    case NotAwaiting => r.(skipped := r.skipped + 1)
    case CouldNot(_) => r.(errors := r.errors + 1)
    case Aborted => r.(errors := r.errors + 1)
  }

  /** What one call did to the ledger. */
  lemma Judged(before: Store, after: Store, meta: VerifyMeta, prepare: seq<string>, left: nat, now: nat,
               outcome: Outcome,
               results: seq<RunResult>)
    requires before.Valid()
    requires !AwaitsVerdict(before, meta.task) ==> after == before
    requires AwaitsVerdict(before, meta.task) && outcome.Aborted? ==> after == before
    requires AwaitsVerdict(before, meta.task) && !outcome.Aborted? ==>
               && |results| <= |prepare + meta.commands|
               && Transition.Applied(before, meta.task, Verdict(prepare + meta.commands, results), left)
                  == Ran(after, now, if outcome.CouldNot? then Ended.Failed(outcome.failure) else Done)
    ensures Judging(before, after) && (!outcome.CouldNot? && !outcome.Aborted? ==> !AwaitsVerdict(after, meta.task))
  {
    hide Transition.Applied, Verdict, T.Task.Apply;
    if AwaitsVerdict(before, meta.task) && !outcome.Aborted? {
      VerdictKind(prepare + meta.commands, results);
      VerdictJudges(before, meta.task, Verdict(prepare + meta.commands, results), left);
    } else {
      JudgingSelf(before);
    }
  }

  lemma StillJudged(a: Store, b: Store)
    requires Judging(a, b)
    ensures forall x :: !AwaitsVerdict(a, x) ==> !AwaitsVerdict(b, x)
  {
  }

  lemma JudgingSelf(s: Store)
    requires s.Valid()
    ensures Judging(s, s)
  {
  }
}
