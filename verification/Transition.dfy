// The one workflow every role shares: load a task, apply an event, persist, run the effects.
module Transition {
  import opened Ids
  import opened Ledger
  import opened Text
  import T = Task

  function MergeBead(task: BeadId, branch: Branch, head: Sha): NewBead {
    NewBead(Merge, "merge " + branch + " for " + Decimal(task), None, [], None, Some(MergeMeta(task, branch, head)))
  }

  function IncidentBead(task: BeadId): NewBead {
    NewBead(Incident, "incident on " + Decimal(task), None, [], None, None)
  }

  predicate IsMergeFor(s: Store, id: BeadId, task: BeadId) {
    id in s.beads && s.beads[id].merge.Some? && s.beads[id].merge.value.task == task
  }

  /** Closes of the merge beads for `task` among `listed`. */
  function MergeCloses(s: Store, listed: seq<BeadId>, task: BeadId): seq<Write> {
    if listed == [] then []
    else (if IsMergeFor(s, listed[0], task) then [Close(listed[0])] else []) + MergeCloses(s, listed[1..], task)
  }

  // ---- closing merge beads --------------------------------------------------------------------------------

  /** The merge beads for `task` among `listed`, in order. */
  function MergesNaming(s: Store, listed: seq<BeadId>, task: BeadId): seq<BeadId> {
    if listed == [] then []
    else (if IsMergeFor(s, listed[0], task) then [listed[0]] else []) + MergesNaming(s, listed[1..], task)
  }

  /** The store with the beads `ids` closed. */
  function WithClosed(s: Store, ids: seq<BeadId>): Store {
    s.(beads := map x | x in s.beads :: if x in ids then s.beads[x].(status := Closed) else s.beads[x])
  }

  function Closes(ids: seq<BeadId>): seq<Write> {
    if ids == [] then [] else [Close(ids[0])] + Closes(ids[1..])
  }

  lemma {:induction false} MergeClosesAreCloses(s: Store, listed: seq<BeadId>, task: BeadId)
    ensures MergeCloses(s, listed, task) == Closes(MergesNaming(s, listed, task))
  {
    if listed != [] {
      var rest := MergesNaming(s, listed[1..], task);
      MergeClosesAreCloses(s, listed[1..], task);
      assert IsMergeFor(s, listed[0], task) ==> ([listed[0]] + rest)[1..] == rest;
      assert [] + rest == rest && [] + Closes(rest) == Closes(rest);
    }
  }

  /** Closing beads one by one, with the store dying after `allowed` writes, closes the first of them. */
  lemma {:induction false} ClosesInOrder(s: Store, ids: seq<BeadId>, allowed: nat)
    requires forall id :: id in ids ==> id in s.beads
    ensures var n := if allowed < |ids| then allowed else |ids|;
            Perform(s, Closes(ids), allowed)
            == Ran(WithClosed(s, ids[..n]), allowed - n, if n == |ids| then Done else Failed(Unavailable))
    decreases |ids|
  {
    var n := if allowed < |ids| then allowed else |ids|;
    if ids == [] || allowed == 0 {
      assert ids[..n] == [] && WithClosed(s, []) == s;
    } else {
      var one := WithClosed(s, [ids[0]]);
      assert PerformOne(s, Close(ids[0]), allowed) == Ran(one, allowed - 1, Done) by {
        assert one.beads == s.beads[ids[0] := s.beads[ids[0]].(status := Closed)];
      }
      PerformCons(s, Close(ids[0]), Closes(ids[1..]), allowed);
      ClosesInOrder(one, ids[1..], allowed - 1);
      assert ids[..n] == [ids[0]] + ids[1..][..n - 1];
      ClosedTogether(s, [ids[0]], ids[1..][..n - 1]);
    }
  }

  lemma ClosedTogether(s: Store, first: seq<BeadId>, second: seq<BeadId>)
    ensures WithClosed(WithClosed(s, first), second) == WithClosed(s, first + second)
  {
  }

  /** The merge beads for a task in a listing are exactly the active ones that name it, in ascending order. */
  lemma {:induction false} MergesNamingMeans(s: Store, listed: seq<BeadId>, task: BeadId)
    requires forall i, j :: 0 <= i < j < |listed| ==> listed[i] < listed[j]
    ensures var ids := MergesNaming(s, listed, task);
            && (forall x :: x in ids <==> x in listed && IsMergeFor(s, x, task))
            && forall i, j :: 0 <= i < j < |ids| ==> ids[i] < ids[j]
  {
    if listed != [] {
      var ids, rest := MergesNaming(s, listed, task), MergesNaming(s, listed[1..], task);
      MergesNamingMeans(s, listed[1..], task);
      assert forall x :: x in listed <==> x == listed[0] || x in listed[1..];
      assert forall x :: x in rest ==> listed[0] < x;
      assert forall i :: 0 <= i < |rest| ==> rest[i] in rest;
    }
  }

  /** Closing a task's merge beads: the active ones that name it, in listing order, as far as the writes go. */
  lemma CloseMergesMeans(s: Store, task: BeadId, allowed: nat)
    requires s.Valid()
    ensures var ids := MergesNaming(s, Listing(s, Merge), task);
            var n := if allowed < |ids| then allowed else |ids|;
            && (forall x :: x in ids <==> s.IsActive(x, Merge) && IsMergeFor(s, x, task))
            && (forall i, j :: 0 <= i < j < |ids| ==> ids[i] < ids[j])
            && Perform(s, MergeCloses(s, Listing(s, Merge), task), allowed)
               == Ran(WithClosed(s, ids[..n]), allowed - n, if n == |ids| then Done else Failed(Unavailable))
  {
    ListingIsExact(s, Merge);
    MergesNamingMeans(s, Listing(s, Merge), task);
    MergeClosesAreCloses(s, Listing(s, Merge), task);
    ClosesInOrder(s, MergesNaming(s, Listing(s, Merge), task), allowed);
  }

  // ---- the workflow -----------------------------------------------------------------------------------------

  /** The writes an effect performs when it starts in `s`. */
  function EffectWrites(s: Store, effect: T.Effect): seq<Write> {
    match effect
    case AppendNote(id, note) => [Note(id, note)]
    case OpenMergeBead(id, branch, head) => [Create(MergeBead(id, branch, head))]
    case OpenIncidentBead(id, _) => [Create(IncidentBead(id))]
    case CloseTaskBead(id) => [Close(id)]
    case CloseVerifyBead(verify) => [Close(verify)]
    case CloseMergeBeads(id) => MergeCloses(s, Listing(s, Merge), id)
  }

  function RunEffects(s: Store, effects: seq<T.Effect>, allowed: nat): Ran
    decreases |effects|
  {
    if effects == [] then Ran(s, allowed, Done)
    else
      var first := Perform(s, EffectWrites(s, effects[0]), allowed);
      if first.ended.Done? then RunEffects(first.store, effects[1..], first.left) else first
  }

  /** Why a task cannot be loaded, if it cannot. */
  function Unloadable(s: Store, id: BeadId): Option<Failure> {
    if id !in s.beads then Some(NotFound(id))
    else if s.beads[id].kind != Some(Task) then Some(NotATask(id))
    else if s.beads[id].meta.None? then Some(NoMeta(id))
    else None
  }

  /** What a transition persists before any effect: the new metadata, and, whenever the task is open
      again, the end of the ledger's claim. */
  function Persisted(id: BeadId, was: T.Task, now: T.Task): seq<Write> {
    [SetMeta(id, MetaOf(now))] + if now.state.Open? && !was.state.Open? then [Unclaim(id)] else []
  }

  /** The whole workflow, with the store dying after `allowed` writes. */
  function Applied(s: Store, id: BeadId, event: T.Event, allowed: nat): Ran {
    if Unloadable(s, id).Some? then Ran(s, allowed, Failed(Unloadable(s, id).value))
    else
      match s.TaskOf(id).Apply(event)
      case Refused(why) => Ran(s, allowed, Failed(Illegal(why)))
      case Accepted(now, effects) =>
        var persisted := Perform(s, Persisted(id, s.TaskOf(id), now), allowed);
        if persisted.ended.Done? then RunEffects(persisted.store, effects, persisted.left) else persisted
  }

  method LoadTask(store: BeadStore, id: BeadId) returns (task: Option<T.Task>, failure: Failure)
    requires store.Valid()
    ensures task.Some? == Unloadable(store.View(), id).None?
    ensures task.Some? ==> task.value == store.View().TaskOf(id)
    ensures task.None? ==> failure == Unloadable(store.View(), id).value
    ensures var s := store.View();
            if id !in s.beads then task.None? && failure == NotFound(id)
            else if s.beads[id].kind != Some(Task) then task.None? && failure == NotATask(id)
            else if s.beads[id].meta.None? then task.None? && failure == NoMeta(id)
            else task == Some(s.beads[id].meta.value.IntoTask(id))
  {
    failure := Unavailable;
    var bead := store.Show(id);
    if bead.None? {
      return None, NotFound(id);
    }
    if bead.value.kind != Some(Task) {
      return None, NotATask(id);
    }
    if bead.value.meta.None? {
      return None, NoMeta(id);
    }
    task := Some(bead.value.meta.value.IntoTask(id));
  }

  /** Decide (pure), persist the new state, then run the effects one by one. */
  method ApplyEvent(store: BeadStore, id: BeadId, event: T.Event) returns (ended: Ended, now: Option<T.Task>)
    requires store.Valid()
    modifies store
    ensures store.Valid()
    ensures Ran(store.View(), store.writesAllowed, ended)
         == Applied(old(store.View()), id, event, old(store.writesAllowed))
    ensures ended.Done? ==> old(store.View()).TaskOf(id).Apply(event).Accepted?
    ensures ended.Done? ==> now == Some(old(store.View()).TaskOf(id).Apply(event).task)
  {
    now := None;
    var task, failure := LoadTask(store, id);
    if task.None? {
      return Failed(failure), None;
    }
    var outcome := task.value.Apply(event);
    if outcome.Refused? {
      return Failed(Illegal(outcome.why)), None;
    }
    now := Some(outcome.task);
    ghost var again := Persisted(id, task.value, outcome.task)[1..];
    assert Persisted(id, task.value, outcome.task) == [SetMeta(id, MetaOf(outcome.task))] + again;
    PerformCons(store.View(), SetMeta(id, MetaOf(outcome.task)), again, store.writesAllowed);
    ended := store.Do(SetMeta(id, MetaOf(outcome.task)));
    if ended.Failed? {
      return;
    }
    if outcome.task.state.Open? && !task.value.state.Open? {
      PerformCons(store.View(), Unclaim(id), [], store.writesAllowed);
      ended := store.Do(Unclaim(id));
      if ended.Failed? {
        return;
      }
    }
    assert outcome.effects[0..] == outcome.effects;
    var i := 0;
    while i < |outcome.effects|
      invariant 0 <= i <= |outcome.effects|
      invariant store.Valid() && ended.Done?
      invariant RunEffects(store.View(), outcome.effects[i..], store.writesAllowed)
             == Applied(old(store.View()), id, event, old(store.writesAllowed))
    {
      ended := RunEffect(store, outcome.effects[i]);
      if ended.Failed? {
        return;
      }
      assert outcome.effects[i..][1..] == outcome.effects[i + 1..];
      i := i + 1;
    }
  }

  method RunEffect(store: BeadStore, effect: T.Effect) returns (ended: Ended)
    requires store.Valid()
    modifies store
    ensures store.Valid()
    ensures Ran(store.View(), store.writesAllowed, ended)
         == Perform(old(store.View()), EffectWrites(old(store.View()), effect), old(store.writesAllowed))
  {
    match effect
    case AppendNote(id, note) => ended := store.Do(Note(id, note));
    case OpenMergeBead(id, branch, head) => ended := store.Do(Create(MergeBead(id, branch, head)));
    case OpenIncidentBead(id, _) => ended := store.Do(Create(IncidentBead(id)));
    case CloseTaskBead(id) => ended := store.Do(Close(id));
    case CloseVerifyBead(verify) => ended := store.Do(Close(verify));
    case CloseMergeBeads(id) => ended := CloseMerges(store, id);
  }

  lemma NothingLeft(s: Store, task: BeadId, t: Store, left: nat)
    ensures Perform(t, MergeCloses(s, [], task), left) == Ran(t, left, Done)
  {
  }

  method CloseMerges(store: BeadStore, task: BeadId) returns (ended: Ended)
    requires store.Valid()
    modifies store
    ensures store.Valid()
    ensures Ran(store.View(), store.writesAllowed, ended)
         == Perform(old(store.View()), MergeCloses(old(store.View()), Listing(old(store.View()), Merge), task),
                    old(store.writesAllowed))
    ensures var s, allowed := old(store.View()), old(store.writesAllowed);
            var ids := MergesNaming(s, Listing(s, Merge), task);
            && (forall x :: x in ids <==> s.IsActive(x, Merge) && IsMergeFor(s, x, task))
            && (ended.Done? <==> |ids| <= allowed)
            && store.View() == WithClosed(s, if allowed < |ids| then ids[..allowed] else ids)
  {
    hide Perform, PerformOne, MergesNaming, WithClosed, ListUpTo;
    CloseMergesMeans(store.View(), task, store.writesAllowed);
    ghost var s := store.View();
    ghost var ids := Listing(s, Merge);
    ghost var named := MergesNaming(s, ids, task);
    assert named[..|named|] == named;
    ended := Done;
    var merges := store.ListActive(Merge);
    var i := 0;
    while i < |merges|
      invariant 0 <= i <= |merges| == |ids|
      invariant store.Valid() && ended.Done?
      invariant Perform(store.View(), MergeCloses(s, ids[i..], task), store.writesAllowed)
             == Perform(s, MergeCloses(s, ids, task), old(store.writesAllowed))
    {
      var (id, bead) := merges[i];
      assert ids[i..][1..] == ids[i + 1..];
      ghost var rest := MergeCloses(s, ids[i + 1..], task);
      assert [] + rest == rest;
      PerformCons(store.View(), Close(id), rest, store.writesAllowed);
      if bead.merge.Some? && bead.merge.value.task == task {
        ended := store.Do(Close(id));
        if ended.Failed? {
          return;
        }
      }
      i := i + 1;
    }
    assert ids[i..] == [];
    NothingLeft(s, task, store.View(), store.writesAllowed);
  }
}
