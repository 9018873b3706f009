// Exactly when a single round of sweep and integration pass leaves no task waiting to be merged.
module OneRound {
  import opened Ids
  import opened Time
  import opened Ledger
  import opened Rounds
  import F = Frames
  import I = Integrator
  import P = Protocol
  import S = Steward
  import T = Task
  import Transition

  /** An active merge bead for exactly the stored branch and head of the task. */
  ghost predicate HasMatchingMerge(s: Store, id: BeadId) {
    exists m :: IsMergeOf(s, m, id)
  }

  /** An active merge bead that names the task, matching or stale. */
  ghost predicate HasAnyMerge(s: Store, id: BeadId) {
    exists m :: s.IsActive(m, Merge) && Transition.IsMergeFor(s, m, id)
  }

  // ---- the sweep ----------------------------------------------------------------------------------------------

  /** Merge beads are only added for tasks that had none. */
  lemma {:induction false} AddedForLost(w: S.Sweeping, seen: Store, merges: seq<BeadId>, listed: seq<BeadId>)
    requires w.store.Valid() && OnlyMergesAdded(seen, w.store)
    requires forall id :: id in listed ==> id in seen.beads && seen.IsActive(id, Task)
    ensures var r := S.MergesRepaired(w, seen, merges, listed);
            forall x :: x in r.store.beads && x !in w.store.beads ==>
              r.store.beads[x].merge.Some? && !S.HasMerge(seen, merges, r.store.beads[x].merge.value.task)
    decreases |listed|
  {
    hide S.HasMerge;
    if listed != [] {
      var step := S.MergeRepaired(w, seen, merges, listed[0]);
      MergeRepairedFacts(w, seen, merges, listed[0]);
      AddedTogether(seen, w.store, step.store);
      AddedForLost(step, seen, merges, listed[1..]);
      MergesRepairedFacts(step, seen, merges, listed[1..]);
    }
  }

  /** The tasks' and merge beads' part of an error-free sweep: a task waits after it exactly when it waited
      before, and has a matching merge bead after it exactly when it had one before or had none at all. */
  lemma SweepMatches(s: Store, now: Timestamp, allowed: nat, id: BeadId)
    requires s.Valid() && S.Swept(s, now, allowed).report.errors == 0
    ensures var r := S.Swept(s, now, allowed).store;
            && r.Valid()
            && (NotWaiting(r, id) <==> NotWaiting(s, id))
            && (!NotWaiting(s, id) ==>
                  && id in r.beads && r.beads[id] == s.beads[id]
                  && (HasMatchingMerge(r, id) <==> HasMatchingMerge(s, id) || !HasAnyMerge(s, id)))
  {
    hide S.Swept, S.Repaired, S.Reaped, AsDecided, HasMatchingMerge, HasAnyMerge, SameWork, OnlyMergesAdded, F.Touches;
    var reaped := S.Reaped(s, now, allowed);
    var repaired := S.Repaired(reaped);
    var r := S.Swept(s, now, allowed);
    SweptFacts(s, now, allowed);
    ReapMatches(s, now, allowed, id);
    RepairMatches(reaped, id);
    SameWorkMatches(repaired.store, r.store, id);
  }

  lemma ReapMatches(s: Store, now: Timestamp, allowed: nat, id: BeadId)
    requires s.Valid() && S.Reaped(s, now, allowed).report.errors == 0
    ensures var r := S.Reaped(s, now, allowed).store;
            && r.Valid()
            && (NotWaiting(r, id) <==> NotWaiting(s, id))
            && (!NotWaiting(s, id) ==>
                  && id in r.beads && r.beads[id] == s.beads[id]
                  && (HasMatchingMerge(r, id) <==> HasMatchingMerge(s, id))
                  && (HasAnyMerge(r, id) <==> HasAnyMerge(s, id)))
  {
    hide S.Reaped, T.Task.Apply;
    ReapedFacts(s, now, allowed);
    ListingIsExact(s, Task);
    var r := S.Reaped(s, now, allowed).store;
    if s.IsActive(id, Task) {
      ReapedTaskWaits(s, r, id, now);
    }
    assert forall m :: s.IsActive(m, Merge) ==> m in r.beads && r.beads[m] == s.beads[m];
    assert forall m :: r.IsActive(m, Merge) ==> m in s.beads && r.beads[m] == s.beads[m];
    if !NotWaiting(s, id) {
      SameMergesMatch(s, r, id);
    }
  }

  /** Reaping makes no task mergeable and leaves a mergeable one as it was. */
  lemma ReapedTaskWaits(s: Store, after: Store, id: BeadId, now: Timestamp)
    requires s.IsActive(id, Task) && AsDecided(s, after, id, now)
    ensures s.beads[id].IsMergeable() ==> after.beads[id] == s.beads[id]
    ensures after.beads[id].IsMergeable() ==> after.beads[id] == s.beads[id]
  {
    if s.IsTask(id) && !S.Decide(s.beads[id], now).LetBe? {
      DecisionsAreAccepted(s, id, now);
    }
  }

  /** Stores with the same active merge beads and the same task bead agree on both questions. */
  lemma SameMergesMatch(a: Store, b: Store, id: BeadId)
    requires id in a.beads && id in b.beads && b.beads[id] == a.beads[id]
    requires forall m :: a.IsActive(m, Merge) ==> m in b.beads && b.beads[m] == a.beads[m]
    requires forall m :: b.IsActive(m, Merge) ==> m in a.beads && b.beads[m] == a.beads[m]
    ensures HasMatchingMerge(a, id) <==> HasMatchingMerge(b, id)
    ensures HasAnyMerge(a, id) <==> HasAnyMerge(b, id)
  {
    forall m
      ensures IsMergeOf(a, m, id) <==> IsMergeOf(b, m, id)
      ensures a.IsActive(m, Merge) && Transition.IsMergeFor(a, m, id)
              <==> b.IsActive(m, Merge) && Transition.IsMergeFor(b, m, id)
    {
    }
  }

  lemma RepairMatches(w: S.Sweeping, id: BeadId)
    requires w.store.Valid() && S.Repaired(w).report.errors == w.report.errors
    ensures var r := S.Repaired(w).store;
            && r.Valid()
            && (NotWaiting(r, id) <==> NotWaiting(w.store, id))
            && (!NotWaiting(w.store, id) ==>
                  && id in r.beads && r.beads[id] == w.store.beads[id]
                  && (HasMatchingMerge(r, id) <==> HasMatchingMerge(w.store, id) || !HasAnyMerge(w.store, id)))
  {
    var s, r := w.store, S.Repaired(w).store;
    RepairedFacts(w);
    ListingIsExact(s, Task);
    ListingIsExact(s, Merge);
    AddedForLost(w, s, Listing(s, Merge), Listing(s, Task));
    if !NotWaiting(s, id) {
      hide S.Repaired;
      if m :| IsMergeOf(s, m, id) {
        assert IsMergeOf(r, m, id);
      }
      if HasMatchingMerge(r, id) && HasAnyMerge(s, id) {
        var m :| IsMergeOf(r, m, id);
        var any :| s.IsActive(any, Merge) && Transition.IsMergeFor(s, any, id);
        assert S.HasMerge(s, Listing(s, Merge), id);
        assert IsMergeOf(s, m, id);
      }
    }
  }

  lemma SameWorkMatches(a: Store, b: Store, id: BeadId)
    requires SameWork(a, b)
    ensures NotWaiting(b, id) <==> NotWaiting(a, id)
    ensures !NotWaiting(a, id) ==> id in b.beads && b.beads[id] == a.beads[id]
    ensures !NotWaiting(a, id) ==> (HasMatchingMerge(b, id) <==> HasMatchingMerge(a, id))
  {
    if !NotWaiting(a, id) {
      assert forall m :: a.IsActive(m, Merge) ==> m in b.beads && b.beads[m] == a.beads[m];
      assert forall m :: b.IsActive(m, Merge) ==> m in a.beads && b.beads[m] == a.beads[m];
      SameMergesMatch(a, b, id);
    }
  }

  // ---- verify beads stay apart ------------------------------------------------------------------------------------

  lemma AppliedKeepsVerifyBead(t: T.Task, event: T.Event)
    requires t.Apply(event).Accepted?
    ensures t.Apply(event).task.verifyBead == t.verifyBead
  {
  }

  /** Every task of `b` is a task of `a` with the same verify bead, and beads keep their kind. */
  ghost predicate SameVerifyBeads(a: Store, b: Store) {
    && (forall x :: x in a.beads ==> x in b.beads && b.beads[x].kind == a.beads[x].kind)
    && forall x :: b.IsTask(x) ==> a.IsTask(x) && b.TaskOf(x).verifyBead == a.TaskOf(x).verifyBead
  }

  lemma ApartStays(a: Store, b: Store)
    requires P.VerifyBeadsApart(a) && SameVerifyBeads(a, b)
    ensures P.VerifyBeadsApart(b)
  {
    forall x | b.IsTask(x)
      ensures b.TaskOf(x).verifyBead in b.beads && b.beads[b.TaskOf(x).verifyBead].kind != Some(Task)
    {
      assert a.IsTask(x);
    }
  }

  lemma DecidedKeepsVerifyBead(s: Store, after: Store, id: BeadId, now: Timestamp)
    requires s.IsActive(id, Task) && AsDecided(s, after, id, now) && after.IsTask(id)
    ensures s.IsTask(id) && after.TaskOf(id).verifyBead == s.TaskOf(id).verifyBead
  {
    hide T.Task.Apply;
    if s.IsTask(id) && !S.Decide(s.beads[id], now).LetBe? {
      var event := S.EventOf(S.Decide(s.beads[id], now));
      if s.TaskOf(id).Apply(event).Accepted? {
        AppliedKeepsVerifyBead(s.TaskOf(id), event);
      }
    }
  }

  lemma SweptKeepsVerifyBeads(s: Store, now: Timestamp, allowed: nat)
    requires s.Valid() && S.Swept(s, now, allowed).report.errors == 0
    ensures SameVerifyBeads(s, S.Swept(s, now, allowed).store)
  {
    hide S.Swept, S.Repaired, S.Reaped, AsDecided;
    var reaped := S.Reaped(s, now, allowed);
    var repaired := S.Repaired(reaped);
    var r := S.Swept(s, now, allowed);
    SweptFacts(s, now, allowed);
    ReapedFacts(s, now, allowed);
    RepairedFacts(reaped);
    ListingIsExact(s, Task);
    forall x | r.store.IsTask(x)
      ensures s.IsTask(x) && r.store.TaskOf(x).verifyBead == s.TaskOf(x).verifyBead
    {
      assert x in repaired.store.beads && r.store.beads[x] == repaired.store.beads[x];
      assert x in reaped.store.beads && repaired.store.beads[x] == reaped.store.beads[x];
      assert x in s.beads;
      if s.IsActive(x, Task) {
        DecidedKeepsVerifyBead(s, reaped.store, x, now);
      }
    }
  }

  // ---- the pass ---------------------------------------------------------------------------------------------------

  /** A merge bead that is not for the stored branch and head of `id` leaves that task's bead as it is. */
  lemma OneDoneKeeps(p: I.Pass, mb: BeadId, meta: MergeMeta, attempt: I.Attempt, id: BeadId)
    requires p.store.Valid() && mb in p.store.beads && p.store.beads[mb].kind == Some(Merge)
    requires id in p.store.beads && p.store.beads[id].kind == Some(Task)
    requires IsTaskMergeable(p.store, meta) ==> meta.task != id && p.store.TaskOf(meta.task).verifyBead != id
    ensures var q := I.OneDone(p, mb, meta, attempt).store; id in q.beads && q.beads[id] == p.store.beads[id]
  {
    hide Transition.Applied, T.Task.Apply;
    if !attempt.Fails? && IsTaskMergeable(p.store, meta) {
      var event := if attempt.Lands? then T.Merged(attempt.head) else T.MergeFailed(attempt.detail);
      F.AppliedFrame(p.store, meta.task, event, p.left);
      assert id !in F.Touched(p.store, meta.task, event);
    }
  }

  lemma {:induction false} PassKeeps(p: I.Pass, seen: Store, listed: seq<BeadId>, attempts: seq<I.Attempt>, id: BeadId)
    requires |attempts| == |listed| && Landing(seen, p.store) && P.VerifyBeadsApart(seen)
    requires forall mb :: mb in listed ==> mb in seen.beads && seen.beads[mb].kind == Some(Merge)
    requires I.PassOver(p, seen, listed, attempts).report.errors == p.report.errors
    requires seen.IsTask(id) && seen.StateOf(id).Mergeable? && id in p.store.beads
             && p.store.beads[id] == seen.beads[id]
    requires forall mb :: mb in listed ==> seen.beads[mb].merge != Some(MergeMeta(id, seen.StateOf(id).branch,
                                                                                  seen.StateOf(id).head))
    ensures var q := I.PassOver(p, seen, listed, attempts).store; id in q.beads && q.beads[id] == seen.beads[id]
    decreases |listed|
  {
    hide I.OneDone, Landing;
    if listed != [] {
      var mb := listed[0];
      var merge := seen.beads[mb].merge;
      LandingBead(seen, p.store, mb);
      var step := if merge.None? then p.(report := I.Counted(p.report, I.DidSkip))
          else I.OneDone(p, mb, merge.value, attempts[0]);
      assert I.PassOver(p, seen, listed, attempts) == I.PassOver(step, seen, listed[1..], attempts[1..]);
      ErrorsGrow(step, seen, listed[1..], attempts[1..]);
      if merge.Some? {
        if IsTaskMergeable(p.store, merge.value) {
          MatchesAreApart(seen, p.store, merge.value, id);
        }
        OneDoneFacts(p, mb, merge.value, attempts[0]);
        OneDoneKeeps(p, mb, merge.value, attempts[0], id);
        LandingTransitive(seen, p.store, step.store);
      }
      PassKeeps(step, seen, listed[1..], attempts[1..], id);
    }
  }

  /** A task the pass could land for another merge bead is not `id`, and neither is its verify bead. */
  lemma MatchesAreApart(seen: Store, now: Store, meta: MergeMeta, id: BeadId)
    requires Landing(seen, now) && P.VerifyBeadsApart(seen) && IsTaskMergeable(now, meta)
    requires seen.IsTask(id) && seen.StateOf(id).Mergeable? && id in now.beads && now.beads[id] == seen.beads[id]
    requires meta != MergeMeta(id, seen.StateOf(id).branch, seen.StateOf(id).head)
    ensures meta.task != id && now.TaskOf(meta.task).verifyBead != id
  {
    assert meta.task in seen.beads && seen.beads[meta.task].meta == now.beads[meta.task].meta;
    assert seen.IsTask(meta.task);
  }

  /** An error-free pass takes exactly those waiting tasks out of the wait that have a matching merge bead. */
  lemma PassMatches(s: Store, attempts: seq<I.Attempt>, allowed: nat, id: BeadId)
    requires s.Valid() && P.VerifyBeadsApart(s) && |attempts| == |Listing(s, Merge)|
    requires I.Integrated(s, attempts, allowed).report.errors == 0
    ensures var q := I.Integrated(s, attempts, allowed).store;
            NotWaiting(q, id) <==> NotWaiting(s, id) || HasMatchingMerge(s, id)
  {
    hide I.PassOver;
    var q := I.Integrated(s, attempts, allowed).store;
    PassClosesMergeBeads(s, attempts, allowed);
    ListingIsExact(s, Merge);
    if id in s.beads && !NotWaiting(s, id) {
      if HasMatchingMerge(s, id) {
        var m :| IsMergeOf(s, m, id);
        assert Handled(s, q, m);
      } else {
        assert forall mb :: mb in Listing(s, Merge) ==> !IsMergeOf(s, mb, id);
        LandingOfSelf(s);
        PassKeeps(I.Pass(s, allowed, I.NO_REPORT), s, Listing(s, Merge), attempts, id);
      }
    }
  }

  lemma LandingOfSelf(s: Store)
    requires s.Valid()
    ensures Landing(s, s)
  {
  }

  // ---- the round ----------------------------------------------------------------------------------------------------

  /** One round of sweep and pass without errors leaves no active task mergeable exactly when no waiting task had
      active merge beads all of which were stale: each had a matching one, or none at all. */
  lemma OneRoundSufficesIff(s: Store, now: Timestamp, allowed: nat, attempts: seq<I.Attempt>)
    requires s.Valid() && P.VerifyBeadsApart(s) && S.Swept(s, now, allowed).report.errors == 0
    requires var swept := S.Swept(s, now, allowed);
             && swept.store.Valid() && |attempts| == |Listing(swept.store, Merge)|
             && I.Integrated(swept.store, attempts, swept.left).report.errors == 0
    ensures var swept := S.Swept(s, now, allowed);
            var last := I.Integrated(swept.store, attempts, swept.left).store;
            (forall id :: NotWaiting(last, id))
            <==> forall id :: !NotWaiting(s, id) ==> HasMatchingMerge(s, id) || !HasAnyMerge(s, id)
  {
    hide S.Swept, I.Integrated, HasMatchingMerge, HasAnyMerge, NotWaiting, P.VerifyBeadsApart, SameVerifyBeads;
    var swept := S.Swept(s, now, allowed);
    var last := I.Integrated(swept.store, attempts, swept.left).store;
    SweptKeepsVerifyBeads(s, now, allowed);
    ApartStays(s, swept.store);
    forall id
      ensures NotWaiting(last, id) <==> NotWaiting(s, id) || HasMatchingMerge(s, id) || !HasAnyMerge(s, id)
    {
      SweepMatches(s, now, allowed, id);
      PassMatches(swept.store, attempts, swept.left, id);
    }
  }
}
