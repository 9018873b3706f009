// What a call of the workflow leaves in the ledger when it runs to its end, and when it does: the task's new
// metadata, the end of the claim, the note, the beads it closes and the one it opens. What roles and readers of
// the ledger build on is stated here of the ledger alone.
module CompletedCalls {
  import opened Ids
  import opened Ledger
  import opened TaskTable
  import opened Text
  import F = Frames
  import T = Task
  import Transition

  // ---- effects one by one ---------------------------------------------------------------------------------

  lemma RunOne(s: Store, effect: T.Effect, allowed: nat)
    ensures Transition.RunEffects(s, [effect], allowed) == Perform(s, Transition.EffectWrites(s, effect), allowed)
  {
    hide Transition.EffectWrites, Perform;
    assert [effect][1..] == [];
  }

  lemma RunTwo(s: Store, first: T.Effect, second: T.Effect, allowed: nat)
    ensures var r := Perform(s, Transition.EffectWrites(s, first), allowed);
            Transition.RunEffects(s, [first, second], allowed)
            == if r.ended.Done? then Perform(r.store, Transition.EffectWrites(r.store, second), r.left) else r
  {
    hide Transition.EffectWrites, Perform;
    var r := Perform(s, Transition.EffectWrites(s, first), allowed);
    assert [first, second][1..] == [second];
    if r.ended.Done? {
      RunOne(r.store, second, r.left);
    }
  }

  // ---- what a completed call leaves -------------------------------------------------------------------------

  /** The notes of a bead with one more note below them. */
  function Below(notes: Option<string>, note: string): string {
    if notes.Some? then notes.value + "\n" + note else note
  }

  /** The bead is one the call closes: the landed task's own and its verify bead, a canceled task's merge beads. */
  predicate ClosedBy(s: Store, id: BeadId, next: T.Task, x: BeadId)
    requires x in s.beads
  {
    || (next.state.Closed? && (x == id || x == next.verifyBead))
    || (next.state.Canceled? && s.IsActive(x, Merge) && s.beads[x].merge.Some? && s.beads[x].merge.value.task == id)
  }

  /** A bead that was there before, after the call. */
  predicate IsLeft(s: Store, id: BeadId, e: T.Event, next: T.Task, x: BeadId, b: Bead)
    requires x in s.beads && s.IsTask(id)
  {
    var was := s.beads[x];
    var note := NoteOf(s.TaskOf(id), e, next.state);
    && b.kind == was.kind && b.title == was.title && b.parent == was.parent && b.verify == was.verify
    && b.merge == was.merge
    && b.meta == (if x == id then Some(MetaOf(next)) else was.meta)
    && b.notes == (if x == id && note != [] then Some(Below(was.notes, note[0])) else was.notes)
    && b.status == (if ClosedBy(s, id, next, x) then Closed
                    else if x == id && next.state.Open? && !s.StateOf(id).Open? then Status.Open
                    else was.status)
  }

  /** The bead a call opens, if it leads to a mergeable task or to an incident: unclaimed, blocked by nothing, and,
      for a mergeable task, holding exactly the branch and head to be landed. */
  predicate Opens(id: BeadId, next: T.Task, b: Bead) {
    && b.status.Open? && b.parent.None? && b.meta.None? && b.verify.None? && b.notes.None?
    && if next.state.Mergeable?
       then
         && b.kind == Some(Merge) && b.merge == Some(MergeMeta(id, next.state.branch, next.state.head))
         && b.title == "merge " + next.state.branch + " for " + Decimal(id)
       else b.kind == Some(Incident) && b.merge.None? && b.title == "incident on " + Decimal(id)
  }

  predicate OpensOne(next: T.Task) {
    next.state.Mergeable? || next.state.Incident?
  }

  /** The whole ledger after a completed call that led to `next`. */
  ghost predicate Left(s: Store, id: BeadId, e: T.Event, next: T.Task, r: Store)
    requires s.IsTask(id)
  {
    && r.next == s.next + (if OpensOne(next) then 1 else 0)
    && (forall x: BeadId :: x in r.beads <==> x in s.beads || s.next <= x < r.next)
    && (forall x :: x in s.beads ==> x in r.beads && IsLeft(s, id, e, next, x, r.beads[x]))
    && (forall x: BeadId :: s.next <= x < r.next ==> x in r.beads && Opens(id, next, r.beads[x]) && r.NeedsOf(x) == [])
    && (forall x: BeadId :: x < s.next ==> r.NeedsOf(x) == s.NeedsOf(x))
  }

  /** The number of writes of a call that leads to `next`. */
  function Cost(s: Store, id: BeadId, e: T.Event, next: T.Task): nat
    requires s.IsTask(id)
  {
    1 + (if next.state.Open? && !s.StateOf(id).Open? then 1 else 0)
    + |NoteOf(s.TaskOf(id), e, next.state)|
    + (if OpensOne(next) then 1 else 0)
    + (if next.state.Closed? then 2 else 0)
    + (if next.state.Canceled? then |Transition.MergesNaming(s, Listing(s, Merge), id)| else 0)
  }

  /** A call that may be made completes exactly when the store outlives its writes (and, on a merge, the verify bead
      exists); then the ledger is as `Left` says. */
  lemma CompletesIff(s: Store, id: BeadId, e: T.Event, allowed: nat)
    requires s.Valid()
    ensures var r := Transition.Applied(s, id, e, allowed);
            r.ended.Done? <==>
              && s.IsTask(id) && Takes(s.TaskOf(id), e) && s.TaskOf(id).Apply(e).Accepted?
              && allowed >= Cost(s, id, e, s.TaskOf(id).Apply(e).task)
              && (e.Merged? ==> s.beads[id].meta.value.verifyBead in s.beads)
    ensures var r := Transition.Applied(s, id, e, allowed);
            r.ended.Done? ==> Left(s, id, e, s.TaskOf(id).Apply(e).task, r.store)
  {
    hide T.Task.Apply, Transition.RunEffects, Transition.Persisted, Left, Cost, Takes;
    if s.IsTask(id) {
      AcceptedIff(s.TaskOf(id), e);
      if Takes(s.TaskOf(id), e) {
        TakenCompletes(s, id, e, allowed);
      }
    }
  }

  /** The store after the new metadata and, for a task that is open again, the end of the claim. */
  function Stored(s: Store, id: BeadId, next: T.Task): Store
    requires s.IsTask(id)
  {
    var b := s.beads[id].(meta := Some(MetaOf(next)));
    s.With(id, if next.state.Open? && !s.StateOf(id).Open? then b.(status := Status.Open) else b)
  }

  lemma StoredFirst(s: Store, id: BeadId, next: T.Task, allowed: nat)
    requires s.IsTask(id)
    ensures var n := 1 + if next.state.Open? && !s.StateOf(id).Open? then 1 else 0;
            var r := Perform(s, Transition.Persisted(id, s.TaskOf(id), next), allowed);
            && (r.ended.Done? <==> allowed >= n)
            && (r.ended.Done? ==> r.store == Stored(s, id, next) && r.left == allowed - n)
  {
    var unclaim := if next.state.Open? && !s.StateOf(id).Open? then [Unclaim(id)] else [];
    PerformCons(s, SetMeta(id, MetaOf(next)), unclaim, allowed);
    if unclaim != [] && allowed > 0 {
      var one := PerformOne(s, SetMeta(id, MetaOf(next)), allowed);
      PerformCons(one.store, Unclaim(id), [], one.left);
      assert one.store.With(id, one.store.beads[id].(status := Status.Open)) == Stored(s, id, next);
    }
  }

  lemma TakenCompletes(s: Store, id: BeadId, e: T.Event, allowed: nat)
    requires s.Valid() && s.IsTask(id) && Takes(s.TaskOf(id), e) && s.TaskOf(id).Apply(e).Accepted?
    ensures var r := Transition.Applied(s, id, e, allowed);
            var next := s.TaskOf(id).Apply(e).task;
            && (r.ended.Done? <==>
                  allowed >= Cost(s, id, e, next) && (e.Merged? ==> s.beads[id].meta.value.verifyBead in s.beads))
            && (r.ended.Done? ==> Left(s, id, e, next, r.store))
  {
    hide T.Task.Apply, Transition.RunEffects, Transition.Persisted, Left, Stored, Cost;
    var t := s.TaskOf(id);
    var Accepted(next, effects) := t.Apply(e);
    AcceptedLeadsTo(t, e);
    AcceptedAsks(t, e);
    StoredFirst(s, id, next, allowed);
    var n := 1 + if next.state.Open? && !s.StateOf(id).Open? then 1 else 0;
    CostIsMore(s, id, e, next, n);
    if allowed >= n {
      if e.Cancel? {
        CancelCompletes(s, id, e, next, effects, allowed);
      } else if e.Merged? {
        assert effects == [T.CloseTaskBead(id), T.CloseVerifyBead(next.verifyBead)];
        MergedCompletes(s, id, e, next, allowed - n);
        assert n == 1;
      } else {
        PlainIsPlain(t, e, next, effects);
        PlainCompletes(s, id, e, next, effects, allowed - n);
        var r := Transition.Applied(s, id, e, allowed);
        assert r == Transition.RunEffects(Stored(s, id, next), effects, allowed - n);
      }
    }
  }

  lemma PlainIsPlain(t: T.Task, e: T.Event, next: T.Task, effects: seq<T.Effect>)
    requires Takes(t, e) && !e.Cancel? && !e.Merged? && t.Apply(e) == T.Accepted(next, effects)
    ensures !next.state.Closed? && !next.state.Canceled? && |NoteOf(t, e, next.state)| <= 1
    ensures effects == PlainEffects(t.id, NoteOf(t, e, next.state), next)
  {
    hide T.Task.Apply;
    AcceptedLeadsTo(t, e);
    AcceptedAsks(t, e);
  }

  lemma CostIsMore(s: Store, id: BeadId, e: T.Event, next: T.Task, n: nat)
    requires s.IsTask(id) && n == 1 + if next.state.Open? && !s.StateOf(id).Open? then 1 else 0
    ensures Cost(s, id, e, next) >= n
  {
  }

  /** The effects of any event but a merge and a cancel: at most a note and at most one new bead. */
  function PlainEffects(id: BeadId, notes: seq<string>, next: T.Task): seq<T.Effect> {
    (if notes == [] then [] else [T.AppendNote(id, notes[0])])
    + (if next.state.Incident? then [T.OpenIncidentBead(id, next.state.reason)] else [])
    + (if next.state.Mergeable? then [T.OpenMergeBead(id, next.state.branch, next.state.head)] else [])
  }

  function Noted(s: Store, id: BeadId, notes: seq<string>): Store
    requires id in s.beads
  {
    if notes == [] then s
    else s.With(id, s.beads[id].(notes := Some(Below(s.beads[id].notes, notes[0]))))
  }

  function Opened(s: Store, id: BeadId, next: T.Task): Store {
    if next.state.Incident? then Written(s, Create(Transition.IncidentBead(id))).value
    else if next.state.Mergeable?
    then Written(s, Create(Transition.MergeBead(id, next.state.branch, next.state.head))).value
    else s
  }

  lemma PlainRuns(s: Store, id: BeadId, notes: seq<string>, next: T.Task, left: nat)
    requires id in s.beads && |notes| <= 1
    ensures var r := Transition.RunEffects(s, PlainEffects(id, notes, next), left);
            && (r.ended.Done? <==> left >= |notes| + if OpensOne(next) then 1 else 0)
            && (r.ended.Done? ==> r.store == Opened(Noted(s, id, notes), id, next))
  {
    hide Transition.RunEffects, Transition.MergeBead, Transition.IncidentBead;
    var effects := PlainEffects(id, notes, next);
    if effects == [] {
      NothingToRun(s, left);
    } else if notes == [] || !OpensOne(next) {
      assert effects == [effects[0]];
      RunOne(s, effects[0], left);
      PerformCons(s, Transition.EffectWrites(s, effects[0])[0], [], left);
    } else {
      assert effects == [effects[0], effects[1]];
      RunTwo(s, effects[0], effects[1], left);
      PerformCons(s, Note(id, notes[0]), [], left);
      var noted := Noted(s, id, notes);
      assert left > 0 ==> PerformOne(s, Note(id, notes[0]), left) == Ran(noted, left - 1, Done);
      if left > 0 {
        PerformCons(noted, Transition.EffectWrites(noted, effects[1])[0], [], left - 1);
      }
    }
  }

  lemma PlainLeft(s: Store, id: BeadId, e: T.Event, next: T.Task)
    requires s.Valid() && s.IsTask(id) && !next.state.Closed? && !next.state.Canceled?
    ensures Left(s, id, e, next, Opened(Noted(Stored(s, id, next), id, NoteOf(s.TaskOf(id), e, next.state)), id, next))
  {
    hide NoteOf, Opened, Noted, IsLeft, Opens, Transition.MergeBead, Transition.IncidentBead;
    var notes := NoteOf(s.TaskOf(id), e, next.state);
    var noted := Noted(Stored(s, id, next), id, notes);
    var r := Opened(noted, id, next);
    NotedFacts(s, id, e, next);
    OpenedFacts(noted, id, next);
    assert forall x: BeadId :: x < s.next ==> r.NeedsOf(x) == s.NeedsOf(x);
  }

  lemma NotedFacts(s: Store, id: BeadId, e: T.Event, next: T.Task)
    requires s.Valid() && s.IsTask(id) && !next.state.Closed? && !next.state.Canceled?
    ensures id in Stored(s, id, next).beads
    ensures var noted := Noted(Stored(s, id, next), id, NoteOf(s.TaskOf(id), e, next.state));
            && noted.next == s.next && noted.needs == s.needs && noted.beads.Keys == s.beads.Keys
            && forall x :: x in s.beads ==> IsLeft(s, id, e, next, x, noted.beads[x])
  {
    hide NoteOf;
  }

  lemma OpenedFacts(s: Store, id: BeadId, next: T.Task)
    requires s.Valid()
    ensures var r := Opened(s, id, next);
            && r.next == s.next + (if OpensOne(next) then 1 else 0)
            && (forall x: BeadId :: x in r.beads <==> x in s.beads || s.next <= x < r.next)
            && (forall x :: x in s.beads ==> x in r.beads && r.beads[x] == s.beads[x])
            && (forall x: BeadId :: s.next <= x < r.next ==>
                 x in r.beads && Opens(id, next, r.beads[x]) && r.NeedsOf(x) == [])
            && (forall x: BeadId :: x < s.next ==> r.NeedsOf(x) == s.NeedsOf(x))
  {
  }

  lemma PlainCompletes(s: Store, id: BeadId, e: T.Event, next: T.Task, effects: seq<T.Effect>, left: nat)
    requires s.Valid() && s.IsTask(id) && !next.state.Closed? && !next.state.Canceled?
    requires var notes := NoteOf(s.TaskOf(id), e, next.state); |notes| <= 1 && effects == PlainEffects(id, notes, next)
    ensures var r := Transition.RunEffects(Stored(s, id, next), effects, left);
            var n := 1 + if next.state.Open? && !s.StateOf(id).Open? then 1 else 0;
            && (r.ended.Done? <==> left + n >= Cost(s, id, e, next))
            && (r.ended.Done? ==> Left(s, id, e, next, r.store))
  {
    hide NoteOf, Transition.RunEffects, Left, Noted, Opened, PlainEffects, Transition.MergesNaming;
    PlainRuns(Stored(s, id, next), id, NoteOf(s.TaskOf(id), e, next.state), next, left);
    PlainLeft(s, id, e, next);
  }

  lemma NothingToRun(s: Store, left: nat)
    ensures Transition.RunEffects(s, [], left) == Ran(s, left, Done)
  {
  }

  lemma MergedCompletes(s: Store, id: BeadId, e: T.Event, next: T.Task, left: nat)
    requires s.Valid() && s.IsTask(id) && next.state.Closed? && e.Merged?
    requires next.verifyBead == s.TaskOf(id).verifyBead
    ensures var r := Transition.RunEffects(Stored(s, id, next),
                                           [T.CloseTaskBead(id), T.CloseVerifyBead(next.verifyBead)], left);
            && (r.ended.Done? <==> left + 1 >= Cost(s, id, e, next) && next.verifyBead in s.beads)
            && (r.ended.Done? ==> Left(s, id, e, next, r.store))
  {
    hide Transition.RunEffects;
    var stored := Stored(s, id, next);
    RunTwo(stored, T.CloseTaskBead(id), T.CloseVerifyBead(next.verifyBead), left);
    PerformCons(stored, Close(id), [], left);
    if left > 0 {
      var closed := PerformOne(stored, Close(id), left);
      PerformCons(closed.store, Close(next.verifyBead), [], closed.left);
    }
  }

  lemma CancelCompletes(s: Store, id: BeadId, e: T.Event, next: T.Task, effects: seq<T.Effect>, allowed: nat)
    requires s.Valid() && s.IsTask(id) && e.Cancel? && Takes(s.TaskOf(id), e)
    requires s.TaskOf(id).Apply(e) == T.Accepted(next, effects) && next.state == T.Canceled(e.actor)
    ensures var r := Transition.Applied(s, id, e, allowed);
            && (r.ended.Done? <==> allowed >= Cost(s, id, e, next))
            && (r.ended.Done? ==> Left(s, id, e, next, r.store))
  {
    hide T.Task.Apply, Transition.Applied, Transition.MergesNaming, ListUpTo;
    F.CancelTable(s.TaskOf(id), e.actor);
    F.CancelClosesItsMergeBeads(s, id, e.actor, allowed);
    F.CancelLeavesItsNote(s, id, e.actor, allowed);
    var ids := Transition.MergesNaming(s, Listing(s, Merge), id);
    assert ids[..|ids|] == ids;
  }

  // ---- what the next worker finds ---------------------------------------------------------------------------

  /** One call of the workflow, with the writes the store outlives. */
  datatype Call = Call(id: BeadId, event: T.Event, allowed: nat)

  function Made(s: Store, call: Call): Ran {
    Transition.Applied(s, call.id, call.event, call.allowed)
  }

  function AfterCalls(s: Store, calls: seq<Call>): Store {
    if calls == [] then s else Made(AfterCalls(s, calls[..|calls| - 1]), calls[|calls| - 1]).store
  }

  /** Some call recorded the merge of `n` and ran to its end. */
  ghost predicate WasLanded(s: Store, calls: seq<Call>, n: BeadId) {
    exists i :: 0 <= i < |calls| && LandsAt(s, calls, i, n)
  }

  ghost predicate LandsAt(s: Store, calls: seq<Call>, i: nat, n: BeadId)
    requires i < |calls|
  {
    calls[i].id == n && calls[i].event.Merged? && Made(AfterCalls(s, calls[..i]), calls[i]).ended.Done?
  }

  /** The bead of a landed task: closed, and so is the task. */
  predicate IsLanded(s: Store, n: BeadId) {
    s.IsTask(n) && s.StateOf(n).Closed? && s.IsClosed(n)
  }

  /** Any sequence of calls, whatever the events and wherever each is cut off: an active task all of whose blockers
      were landed by calls that completed is ready to be claimed. */
  lemma LandedBlockersMakeReady(s: Store, calls: seq<Call>, id: BeadId)
    requires s.Valid() && AfterCalls(s, calls).IsActive(id, Task)
    requires forall n :: n in AfterCalls(s, calls).NeedsOf(id) ==> WasLanded(s, calls, n)
    ensures AfterCalls(s, calls).IsReady(id, Task)
  {
    hide Made, AfterCalls;
    forall n | n in AfterCalls(s, calls).NeedsOf(id)
      ensures AfterCalls(s, calls).IsClosed(n)
    {
      LandedStays(s, calls, n);
    }
  }

  lemma {:induction false} LandedStays(s: Store, calls: seq<Call>, n: BeadId)
    requires s.Valid() && WasLanded(s, calls, n)
    ensures IsLanded(AfterCalls(s, calls), n) && AfterCalls(s, calls).Valid()
  {
    hide Made, IsLanded;
    var k := |calls| - 1;
    var before := AfterCalls(s, calls[..k]);
    ValidAfter(s, calls[..k]);
    var i :| 0 <= i < |calls| && LandsAt(s, calls, i, n);
    if i == k {
      CompletedMerge(before, calls[k]);
    } else {
      assert calls[..k][..i] == calls[..i];
      assert LandsAt(s, calls[..k], i, n);
      LandedStays(s, calls[..k], n);
      LandedKept(before, calls[k], n);
    }
  }

  lemma {:induction false} ValidAfter(s: Store, calls: seq<Call>)
    requires s.Valid()
    ensures AfterCalls(s, calls).Valid()
  {
    hide Transition.Applied;
    if calls != [] {
      var k := |calls| - 1;
      ValidAfter(s, calls[..k]);
      F.AppliedFrame(AfterCalls(s, calls[..k]), calls[k].id, calls[k].event, calls[k].allowed);
    }
  }

  lemma CompletedMerge(s: Store, call: Call)
    requires s.Valid() && call.event.Merged? && Made(s, call).ended.Done?
    ensures Made(s, call).store.Valid() && IsLanded(Made(s, call).store, call.id)
  {
    hide Transition.Applied, T.Task.Apply;
    CompletesIff(s, call.id, call.event, call.allowed);
    AcceptedLeadsTo(s.TaskOf(call.id), call.event);
    F.AppliedFrame(s, call.id, call.event, call.allowed);
  }

  lemma LandedKept(s: Store, call: Call, n: BeadId)
    requires s.Valid() && IsLanded(s, n)
    ensures Made(s, call).store.Valid() && IsLanded(Made(s, call).store, n)
  {
    hide Transition.Applied, T.Task.Apply, F.MergesOf;
    F.AppliedFrame(s, call.id, call.event, call.allowed);
    if s.IsTask(call.id) {
      AcceptedIff(s.TaskOf(call.id), call.event);
      if call.id == n {
        NothingAccepted(s, call);
      } else if call.event.Merged? {
        F.MergedOnlyCloses(s, call.id, call.event.merged, call.allowed);
      } else {
        MergesAreNoTasks(s, call.id, n);
      }
    }
  }

  lemma MergesAreNoTasks(s: Store, id: BeadId, n: BeadId)
    requires s.IsTask(n)
    ensures n !in F.MergesOf(s, id)
  {
  }

  lemma NothingAccepted(s: Store, call: Call)
    requires s.IsTask(call.id) && s.StateOf(call.id).Closed?
    ensures Made(s, call).store == s
  {
    hide T.Task.Apply;
    AcceptedIff(s.TaskOf(call.id), call.event);
  }
}
