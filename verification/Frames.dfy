// What a stretch of writes leaves alone: the beads it does not name, and what kind of bead it creates.
module Frames {
  import opened Ids
  import opened Ledger
  import T = Task
  import Transition

  /** From `a` to `b` only beads in `touched` changed, no bead changed kind, parent or merge data, and
      every new bead has a kind in `kinds` and is no task. */
  ghost predicate Touches(a: Store, b: Store, touched: set<BeadId>, kinds: set<Kind>) {
    && a.next <= b.next && b.Valid()
    && (forall x :: x in a.beads ==>
          && x in b.beads
          && b.beads[x].kind == a.beads[x].kind && b.beads[x].merge == a.beads[x].merge
          && b.beads[x].parent == a.beads[x].parent
          && (x !in touched ==> b.beads[x] == a.beads[x]))
    && (forall x :: x in b.beads && x !in a.beads ==>
          b.beads[x].kind.Some? && b.beads[x].kind.value in kinds && b.beads[x].meta.None?)
  }

  lemma TouchesTransitive(a: Store, b: Store, c: Store, t1: set<BeadId>, t2: set<BeadId>, k1: set<Kind>, k2: set<Kind>)
    requires Touches(a, b, t1, k1) && Touches(b, c, t2, k2)
    requires forall x :: x in t2 && x in b.beads ==> x in a.beads || b.beads[x].meta == c.beads[x].meta
    ensures Touches(a, c, t1 + t2, k1 + k2)
  {
    forall x | x in a.beads
      ensures x in c.beads && c.beads[x].kind == a.beads[x].kind && c.beads[x].merge == a.beads[x].merge
           && c.beads[x].parent == a.beads[x].parent && (x !in t1 + t2 ==> c.beads[x] == a.beads[x])
    {
      assert x in b.beads;
    }
  }

  lemma TouchesNothing(a: Store, touched: set<BeadId>, kinds: set<Kind>)
    requires a.Valid()
    ensures Touches(a, a, touched, kinds)
  {
  }

  lemma Untouched(a: Store, b: Store, touched: set<BeadId>, kinds: set<Kind>, x: BeadId)
    requires Touches(a, b, touched, kinds) && x in a.beads
    ensures b.Valid() && x in b.beads && b.beads[x].kind == a.beads[x].kind
    ensures x !in touched ==> b.beads[x] == a.beads[x]
  {
  }

  /** Two stretches in a row, the second over beads that were there from the start. */
  lemma TouchesTogether(a: Store, b: Store, c: Store, t1: set<BeadId>, t2: set<BeadId>, kinds: set<Kind>)
    requires Touches(a, b, t1, kinds) && Touches(b, c, t2, kinds) && t2 <= a.beads.Keys
    ensures Touches(a, c, t1 + t2, kinds)
  {
    TouchesTransitive(a, b, c, t1, t2, kinds, kinds);
    assert kinds + kinds == kinds;
  }

  lemma TouchesValid(a: Store, b: Store, touched: set<BeadId>, kinds: set<Kind>)
    requires Touches(a, b, touched, kinds)
    ensures b.Valid() && a.beads.Keys <= b.beads.Keys
  {
  }

  lemma TouchesMore(a: Store, b: Store, touched: set<BeadId>, kinds: set<Kind>, more: set<BeadId>, others: set<Kind>)
    requires Touches(a, b, touched, kinds) && touched <= more && kinds <= others
    ensures Touches(a, b, more, others)
  {
  }

  predicate WriteWithin(w: Write, touched: set<BeadId>, kinds: set<Kind>) {
    match w
    case Create(bead) => bead.kind in kinds && bead.meta.None? && bead.parent.None?
    case SetMeta(_, _) => false
    case AddNeeds(_, _) => false
    case SetVerify(_, _) => false
    case Note(id, _) => id in touched
    case Unclaim(id) => id in touched
    case Close(id) => id in touched
  }

  /** The metadata of `x` is the same before and after. */
  ghost predicate SameMeta(a: Store, b: Store) {
    forall x :: x in a.beads ==> x in b.beads && b.beads[x].meta == a.beads[x].meta
  }

  lemma OneTouches(s: Store, w: Write, allowed: nat, touched: set<BeadId>, kinds: set<Kind>)
    requires s.Valid() && WriteWithin(w, touched, kinds)
    ensures var r := PerformOne(s, w, allowed);
            r.store.Valid() && Touches(s, r.store, touched, kinds) && SameMeta(s, r.store)
  {
  }

  lemma {:induction false} PerformTouches(s: Store, writes: seq<Write>, allowed: nat, touched: set<BeadId>,
                                          kinds: set<Kind>)
    requires s.Valid()
    requires forall w :: w in writes ==> WriteWithin(w, touched, kinds)
    ensures var r := Perform(s, writes, allowed);
            Touches(s, r.store, touched, kinds) && SameMeta(s, r.store)
    decreases |writes|
  {
    hide Touches, PerformOne, WriteWithin;
    if writes == [] {
      TouchesNothing(s, touched, kinds);
    } else {
      var one := PerformOne(s, writes[0], allowed);
      assert WriteWithin(writes[0], touched, kinds);
      OneTouches(s, writes[0], allowed, touched, kinds);
      if one.ended.Done? {
        PerformTouches(one.store, writes[1..], one.left, touched, kinds);
        var r := Perform(s, writes, allowed);
        TouchesTransitive(s, one.store, r.store, touched, touched, kinds, kinds);
        assert touched + touched == touched && kinds + kinds == kinds;
      }
    }
  }

  /** The beads an effect may change, and the kind of bead it may create. */
  predicate EffectWithin(s: Store, effect: T.Effect, touched: set<BeadId>, kinds: set<Kind>) {
    match effect
    case AppendNote(id, _) => id in touched
    case OpenMergeBead(_, _, _) => Merge in kinds
    case OpenIncidentBead(_, _) => Incident in kinds
    case CloseTaskBead(id) => id in touched
    case CloseVerifyBead(verify) => verify in touched
    case CloseMergeBeads(id) => Merge !in kinds && MergesOf(s, id) <= touched
  }

  /** The active merge beads that name a task. */
  function MergesOf(s: Store, task: BeadId): set<BeadId> {
    set x | x in s.beads && s.IsActive(x, Merge) && Transition.IsMergeFor(s, x, task)
  }

  lemma WritesWithin(s: Store, effect: T.Effect, touched: set<BeadId>, kinds: set<Kind>)
    requires s.Valid() && EffectWithin(s, effect, touched, kinds)
    ensures forall w :: w in Transition.EffectWrites(s, effect) ==> WriteWithin(w, touched, kinds)
  {
    hide MergesOf, Transition.MergeCloses, ListUpTo;
    if effect.CloseMergeBeads? {
      MergeClosesWithin(s, effect.task);
    }
  }

  lemma MergeClosesWithin(s: Store, task: BeadId)
    requires s.Valid()
    ensures forall w :: w in Transition.MergeCloses(s, Listing(s, Merge), task) ==>
              w.Close? && w.id in MergesOf(s, task)
  {
    hide Transition.MergeCloses, Transition.MergesNaming, Transition.Closes, ListUpTo;
    var ids := Transition.MergesNaming(s, Listing(s, Merge), task);
    Transition.CloseMergesMeans(s, task, 0);
    Transition.MergeClosesAreCloses(s, Listing(s, Merge), task);
    ClosesNameOnly(ids);
    assert forall x :: x in ids ==> x in MergesOf(s, task);
  }

  lemma {:induction false} ClosesNameOnly(ids: seq<BeadId>)
    ensures forall w :: w in Transition.Closes(ids) ==> w.Close? && w.id in ids
  {
    if ids != [] {
      ClosesNameOnly(ids[1..]);
    }
  }

  /** What an effect is within, it stays within as the ones before it run. */
  lemma WithinStays(a: Store, b: Store, effect: T.Effect, touched: set<BeadId>, kinds: set<Kind>)
    requires EffectWithin(a, effect, touched, kinds) && Touches(a, b, touched, kinds)
    ensures EffectWithin(b, effect, touched, kinds)
  {
    if effect.CloseMergeBeads? {
      var task := effect.task;
      assert forall x :: x in MergesOf(b, task) ==> x in touched || x in MergesOf(a, task);
    }
  }

  lemma {:induction false} EffectsTouch(s: Store, effects: seq<T.Effect>, allowed: nat, touched: set<BeadId>,
                                        kinds: set<Kind>)
    requires s.Valid()
    requires forall e :: e in effects ==> EffectWithin(s, e, touched, kinds)
    ensures var r := Transition.RunEffects(s, effects, allowed);
            Touches(s, r.store, touched, kinds) && SameMeta(s, r.store)
    decreases |effects|
  {
    hide Touches, EffectWithin, WriteWithin, Perform, Transition.EffectWrites;
    if effects == [] {
      TouchesNothing(s, touched, kinds);
    } else {
      assert EffectWithin(s, effects[0], touched, kinds);
      var writes := Transition.EffectWrites(s, effects[0]);
      WritesWithin(s, effects[0], touched, kinds);
      PerformTouches(s, writes, allowed, touched, kinds);
      var one := Perform(s, writes, allowed);
      if one.ended.Done? {
        TouchesValid(s, one.store, touched, kinds);
        forall e | e in effects[1..]
          ensures EffectWithin(one.store, e, touched, kinds)
        {
          WithinStays(s, one.store, e, touched, kinds);
        }
        EffectsTouch(one.store, effects[1..], one.left, touched, kinds);
        var r := Transition.RunEffects(s, effects, allowed);
        TouchesTransitive(s, one.store, r.store, touched, touched, kinds, kinds);
        assert touched + touched == touched && kinds + kinds == kinds;
      }
    }
  }

  /** Every bead but `id` keeps its metadata. */
  ghost predicate OnlyMetaOf(a: Store, b: Store, id: BeadId) {
    forall x :: x in a.beads && x != id ==> x in b.beads && b.beads[x].meta == a.beads[x].meta
  }

  /** The beads an event may change: the task's own; on a merge its verify bead, on a cancel the active merge
      beads that name it. */
  function Touched(s: Store, id: BeadId, event: T.Event): set<BeadId>
    requires s.IsTask(id)
  {
    if event.Merged? then {id, s.TaskOf(id).verifyBead}
    else if event.Cancel? then {id} + MergesOf(s, id)
    else {id}
  }

  /** The kinds of bead an event may create. */
  function Created(event: T.Event): set<Kind> {
    if event.VerifyPassed? then {Merge} else {Incident}
  }

  lemma EffectsTable(s: Store, t: T.Task, event: T.Event, touched: set<BeadId>)
    requires t.Apply(event).Accepted? && t.id in touched
    requires (event.Merged? ==> t.verifyBead in touched) && (event.Cancel? ==> MergesOf(s, t.id) <= touched)
    ensures forall e :: e in t.Apply(event).effects ==> EffectWithin(s, e, touched, Created(event))
    ensures t.Apply(event).task.id == t.id
  {
    hide MergesOf;
  }

  lemma PersistTouches(s: Store, id: BeadId, was: T.Task, now: T.Task, allowed: nat)
    requires s.Valid() && s.IsTask(id)
    ensures var r := Perform(s, Transition.Persisted(id, was, now), allowed);
            && Touches(s, r.store, {id}, {}) && OnlyMetaOf(s, r.store, id) && r.store.beads.Keys == s.beads.Keys
            && (r.ended.Done? ==> r.store.beads[id].meta == Some(MetaOf(now)))
  {
    hide T.Task.Apply;
    PerformCons(s, SetMeta(id, MetaOf(now)), if now.state.Open? && !was.state.Open? then [Unclaim(id)]
                else [], allowed);
  }

  /** Persisting changes no merge bead. */
  lemma SameMerges(a: Store, b: Store, id: BeadId)
    requires a.IsTask(id) && Touches(a, b, {id}, {})
    ensures MergesOf(b, id) == MergesOf(a, id)
  {
  }

  /** What one call of the workflow leaves alone, and, when it ends well, the task it leaves behind. The
      store may die anywhere in between. */
  lemma AppliedFrame(s: Store, id: BeadId, event: T.Event, allowed: nat)
    requires s.Valid()
    ensures var r := Transition.Applied(s, id, event, allowed);
            && Touches(s, r.store, if s.IsTask(id) then Touched(s, id, event) else {}, Created(event))
            && OnlyMetaOf(s, r.store, id)
            && (r.ended.Done? ==>
                  && s.IsTask(id) && s.TaskOf(id).Apply(event).Accepted?
                  && r.store.IsTask(id) && r.store.TaskOf(id) == s.TaskOf(id).Apply(event).task)
  {
    hide T.Task.Apply, Perform, Transition.RunEffects, Transition.Persisted, Touches, MergesOf;
    if !s.IsTask(id) || s.TaskOf(id).Apply(event).Refused? {
      TouchesNothing(s, if s.IsTask(id) then Touched(s, id, event) else {}, Created(event));
    } else {
      AcceptedFrame(s, id, event, allowed);
      Untouched(s, Transition.Applied(s, id, event, allowed).store, Touched(s, id, event), Created(event), id);
    }
  }

  /** The frame of a call that persists, with the task as it ends when the call completes. */
  lemma AcceptedFrame(s: Store, id: BeadId, event: T.Event, allowed: nat)
    requires s.Valid() && s.IsTask(id) && s.TaskOf(id).Apply(event).Accepted?
    ensures var r := Transition.Applied(s, id, event, allowed);
            && Touches(s, r.store, Touched(s, id, event), Created(event))
            && OnlyMetaOf(s, r.store, id)
            && (r.ended.Done? ==> r.store.IsTask(id) && r.store.TaskOf(id) == s.TaskOf(id).Apply(event).task)
  {
    hide T.Task.Apply, Perform, Transition.RunEffects, Transition.Persisted, Touches, MergesOf;
    var was := s.TaskOf(id);
    var Accepted(now, effects) := was.Apply(event);
    var touched := Touched(s, id, event);
    PersistTouches(s, id, was, now, allowed);
    var persisted := Perform(s, Transition.Persisted(id, was, now), allowed);
    SameMerges(s, persisted.store, id);
    EffectsTable(persisted.store, was, event, touched);
    if persisted.ended.Done? {
      TouchesValid(s, persisted.store, {id}, {});
      EffectsTouch(persisted.store, effects, persisted.left, touched, Created(event));
      var r := Transition.RunEffects(persisted.store, effects, persisted.left);
      TouchesTransitive(s, persisted.store, r.store, {id}, touched, {}, Created(event));
      assert {id} + touched == touched && {} + Created(event) == Created(event);
    } else {
      TouchesMore(s, persisted.store, {id}, {}, touched, Created(event));
    }
  }

  /** Beads may have been closed, nothing else happened to any status. */
  ghost predicate OnlyCloses(a: Store, b: Store) {
    forall x :: x in a.beads ==> x in b.beads && (b.beads[x].status == a.beads[x].status || b.beads[x].status.Closed?)
  }

  lemma {:induction false} PerformOnlyCloses(s: Store, writes: seq<Write>, allowed: nat)
    requires s.Valid() && forall w :: w in writes ==> !w.Unclaim?
    ensures Perform(s, writes, allowed).store.Valid() && OnlyCloses(s, Perform(s, writes, allowed).store)
    decreases |writes|
  {
    if writes != [] {
      var one := PerformOne(s, writes[0], allowed);
      assert writes[0] in writes;
      assert one.store.Valid() && OnlyCloses(s, one.store);
      if one.ended.Done? {
        PerformOnlyCloses(one.store, writes[1..], one.left);
      }
    }
  }

  /** No effect reopens anything. */
  lemma {:induction false} EffectsOnlyClose(s: Store, effects: seq<T.Effect>, allowed: nat)
    requires s.Valid()
    ensures OnlyCloses(s, Transition.RunEffects(s, effects, allowed).store)
    decreases |effects|
  {
    hide Perform;
    if effects != [] {
      var writes := Transition.EffectWrites(s, effects[0]);
      if effects[0].CloseMergeBeads? {
        Transition.MergeClosesAreCloses(s, Listing(s, Merge), effects[0].task);
        ClosesNameOnly(Transition.MergesNaming(s, Listing(s, Merge), effects[0].task));
      }
      PerformOnlyCloses(s, writes, allowed);
      var one := Perform(s, writes, allowed);
      if one.ended.Done? {
        EffectsOnlyClose(one.store, effects[1..], one.left);
      }
    }
  }

  lemma MergedIsClosed(t: T.Task, merged: Sha)
    requires t.Apply(T.Merged(merged)).Accepted?
    ensures t.Apply(T.Merged(merged)).task.state.Closed?
  {
  }

  /** Recording a merge reopens nothing. */
  lemma MergedOnlyCloses(s: Store, id: BeadId, merged: Sha, allowed: nat)
    requires s.Valid()
    ensures OnlyCloses(s, Transition.Applied(s, id, T.Merged(merged), allowed).store)
  {
    hide T.Task.Apply, Perform, Transition.RunEffects;
    var event := T.Merged(merged);
    if s.IsTask(id) && s.TaskOf(id).Apply(event).Accepted? {
      var Accepted(now, effects) := s.TaskOf(id).Apply(event);
      MergedIsClosed(s.TaskOf(id), merged);
      var writes := Transition.Persisted(id, s.TaskOf(id), now);
      PerformOnlyCloses(s, writes, allowed);
      var persisted := Perform(s, writes, allowed);
      EffectsOnlyClose(persisted.store, effects, persisted.left);
    }
  }

  /** Wherever the store dies, the task is stored as it was or as the event leaves it. */
  lemma AppliedIsAllOrNothing(s: Store, id: BeadId, event: T.Event, allowed: nat)
    requires s.Valid() && s.IsTask(id)
    ensures var r := Transition.Applied(s, id, event, allowed);
            && r.store.IsTask(id)
            && (r.store.TaskOf(id) == s.TaskOf(id)
                || (s.TaskOf(id).Apply(event).Accepted? && r.store.TaskOf(id) == s.TaskOf(id).Apply(event).task))
            && (if s.TaskOf(id).Apply(event).Accepted? && allowed > 0
                then r.store.TaskOf(id) == s.TaskOf(id).Apply(event).task
                else r.store == s)
  {
    hide T.Task.Apply, Perform, Transition.RunEffects, Transition.Persisted, Touches, MergesOf;
    if s.TaskOf(id).Apply(event).Accepted? {
      var was := s.TaskOf(id);
      var Accepted(now, effects) := was.Apply(event);
      var touched := Touched(s, id, event);
      PersistTouches(s, id, was, now, allowed);
      PersistIsAllOrNothing(s, id, was, now, allowed);
      var persisted := Perform(s, Transition.Persisted(id, was, now), allowed);
      Untouched(s, persisted.store, {id}, {}, id);
      SameMerges(s, persisted.store, id);
      EffectsTable(persisted.store, was, event, touched);
      if persisted.ended.Done? {
        EffectsTouch(persisted.store, effects, persisted.left, touched, Created(event));
        var r := Transition.RunEffects(persisted.store, effects, persisted.left);
        Untouched(persisted.store, r.store, touched, Created(event), id);
      }
    }
  }

  lemma PersistIsAllOrNothing(s: Store, id: BeadId, was: T.Task, now: T.Task, allowed: nat)
    requires s.IsTask(id)
    ensures var r := Perform(s, Transition.Persisted(id, was, now), allowed).store;
            && id in r.beads && (r.beads[id].meta == s.beads[id].meta || r.beads[id].meta == Some(MetaOf(now)))
            && (if allowed > 0 then r.beads[id].meta == Some(MetaOf(now)) else r == s)
    ensures allowed == 0 ==> Perform(s, Transition.Persisted(id, was, now), allowed).ended.Failed?
  {
    PerformCons(s, SetMeta(id, MetaOf(now)), if now.state.Open? && !was.state.Open? then [Unclaim(id)]
                else [], allowed);
  }

  // ---- canceling ----------------------------------------------------------------------------------------------

  lemma {:induction false} SameListing(a: Store, b: Store, kind: Kind, n: nat)
    requires forall x :: a.IsActive(x, kind) <==> b.IsActive(x, kind)
    ensures ListUpTo(a, kind, n) == ListUpTo(b, kind, n)
  {
    if n > 0 {
      SameListing(a, b, kind, n - 1);
    }
  }

  lemma {:induction false} SameNaming(a: Store, b: Store, listed: seq<BeadId>, task: BeadId)
    requires forall x :: Transition.IsMergeFor(a, x, task) <==> Transition.IsMergeFor(b, x, task)
    ensures Transition.MergesNaming(a, listed, task) == Transition.MergesNaming(b, listed, task)
  {
    if listed != [] {
      SameNaming(a, b, listed[1..], task);
    }
  }

  lemma CancelTable(t: T.Task, actor: string)
    requires !t.Terminal()
    ensures t.Apply(T.Cancel(actor))
         == T.Accepted(t.(state := T.Canceled(actor)),
                       [T.CloseMergeBeads(t.id), T.AppendNote(t.id, "canceled by " + actor)])
  {
  }

  /** Canceling a task: its state first, then its merge beads. Cut off anywhere, the beads closed are the first
      ones of those active merge beads that name it, in listing order, and every other bead but the task's own
      is as it was; a cancel that ends well leaves no active merge bead that names the task. */
  lemma CancelClosesItsMergeBeads(s: Store, id: BeadId, actor: string, allowed: nat)
    requires s.Valid() && s.IsTask(id) && !s.TaskOf(id).Terminal()
    ensures var r := Transition.Applied(s, id, T.Cancel(actor), allowed);
            var ids := Transition.MergesNaming(s, Listing(s, Merge), id);
            var n := if allowed == 0 then 0 else if allowed - 1 < |ids| then allowed - 1 else |ids|;
            && (forall x :: x in ids <==> s.IsActive(x, Merge) && Transition.IsMergeFor(s, x, id))
            && r.store.beads.Keys == s.beads.Keys
            && (forall x :: x in s.beads && x != id ==>
                  r.store.beads[x] == if x in ids[..n] then s.beads[x].(status := Closed) else s.beads[x])
            && r.store.IsTask(id) && r.store.beads[id].status == s.beads[id].status
            && (if allowed == 0 then r.store == s else r.store.StateOf(id) == T.Canceled(actor))
            && (r.ended.Done? <==> allowed >= |ids| + 2)
            && (r.ended.Done? ==> forall x :: r.store.IsActive(x, Merge) ==> !Transition.IsMergeFor(r.store, x, id))
  {
    hide Transition.Applied, Perform, ListUpTo, Transition.MergesNaming, Transition.WithClosed, PerformOne,
        T.Task.Apply;
    hide Transition.IsMergeFor, ClosedFirst;
    var now := s.TaskOf(id).(state := T.Canceled(actor));
    var ids := Transition.MergesNaming(s, Listing(s, Merge), id);
    var n := if allowed == 0 then 0 else if allowed - 1 < |ids| then allowed - 1 else |ids|;
    Transition.CloseMergesMeans(s, id, 0);
    CancelRuns(s, id, actor, allowed);
    if allowed == 0 {
      assert ids[..n] == [];
      assert Transition.Applied(s, id, T.Cancel(actor), allowed) == Ran(s, 0, Failed(Unavailable));
    } else {
      var r := Transition.Applied(s, id, T.Cancel(actor), allowed);
      ClosedThenNoted(s, id, MetaOf(now), ids, n, "canceled by " + actor, allowed - 1 - n);
      assert ClosedFirst(s, id, MetaOf(now), ids[..n], r.store);
      ClosedFirstMeans(s, id, MetaOf(now), ids[..n], r.store);
      if n == |ids| {
        assert ids[..n] == ids;
        NoneLeft(s, id, MetaOf(now), ids, r.store);
      }
    }
  }

  /** `r` is `s` with new metadata for the task and the beads `ids` closed; the task may have new notes. */
  ghost predicate ClosedFirst(s: Store, id: BeadId, meta: Meta, ids: seq<BeadId>, r: Store)
    requires id in s.beads
  {
    && r.beads.Keys == s.beads.Keys && r.next == s.next && r.needs == s.needs
    && (forall x :: x in s.beads && x != id ==>
          r.beads[x] == if x in ids then s.beads[x].(status := Closed) else s.beads[x])
    && r.beads[id] == s.beads[id].(meta := Some(meta), notes := r.beads[id].notes)
  }

  /** The task itself after a completed cancel: its new metadata, its note; no bead is new. */
  lemma CancelLeavesItsNote(s: Store, id: BeadId, actor: string, allowed: nat)
    requires s.Valid() && s.IsTask(id) && !s.TaskOf(id).Terminal()
    ensures var r := Transition.Applied(s, id, T.Cancel(actor), allowed);
            r.ended.Done? ==>
              && r.store.next == s.next && r.store.needs == s.needs && id in r.store.beads
              && r.store.beads[id] == s.beads[id].(meta := Some(MetaOf(s.TaskOf(id).(state := T.Canceled(actor)))),
                                                   notes := Some(AppendedNote(s.beads[id].notes,
                                                                              "canceled by " + actor)))
  {
    hide Transition.Applied, Perform, ListUpTo, Transition.MergesNaming, Transition.WithClosed, PerformOne,
        T.Task.Apply;
    hide Transition.IsMergeFor, ClosedFirst;
    var now := s.TaskOf(id).(state := T.Canceled(actor));
    var ids := Transition.MergesNaming(s, Listing(s, Merge), id);
    var n := if allowed == 0 then 0 else if allowed - 1 < |ids| then allowed - 1 else |ids|;
    CancelRuns(s, id, actor, allowed);
    if allowed > 0 {
      ClosedThenNoted(s, id, MetaOf(now), ids, n, "canceled by " + actor, allowed - 1 - n);
      if n == |ids| {
        ClosedFirstMeans(s, id, MetaOf(now), ids[..n], Transition.Applied(s, id, T.Cancel(actor), allowed).store);
      }
    }
  }

  lemma ClosedFirstMeans(s: Store, id: BeadId, meta: Meta, ids: seq<BeadId>, r: Store)
    requires s.IsTask(id) && ClosedFirst(s, id, meta, ids, r)
    ensures r.beads.Keys == s.beads.Keys && r.next == s.next && r.needs == s.needs
    ensures forall x :: x in s.beads && x != id ==>
              r.beads[x] == if x in ids then s.beads[x].(status := Closed) else s.beads[x]
    ensures r.IsTask(id) && r.beads[id].status == s.beads[id].status && r.StateOf(id) == meta.state
    ensures r.beads[id] == s.beads[id].(meta := Some(meta), notes := r.beads[id].notes)
  {
  }

  lemma NoneLeft(s: Store, id: BeadId, meta: Meta, ids: seq<BeadId>, r: Store)
    requires id in s.beads && s.beads[id].kind == Some(Task) && ClosedFirst(s, id, meta, ids, r)
    requires forall x :: s.IsActive(x, Merge) && Transition.IsMergeFor(s, x, id) ==> x in ids
    ensures forall x :: r.IsActive(x, Merge) ==> !Transition.IsMergeFor(r, x, id)
  {
  }

  /** A cancel persists, closes as many of the merge beads as the writes reach, and then leaves its note. */
  lemma CancelRuns(s: Store, id: BeadId, actor: string, allowed: nat)
    requires s.Valid() && s.IsTask(id) && !s.TaskOf(id).Terminal()
    ensures var ids := Transition.MergesNaming(s, Listing(s, Merge), id);
            var now := s.TaskOf(id).(state := T.Canceled(actor));
            var n := if allowed == 0 then 0 else if allowed - 1 < |ids| then allowed - 1 else |ids|;
            var closed := Transition.WithClosed(s.With(id, s.beads[id].(meta := Some(MetaOf(now)))), ids[..n]);
            id !in ids && Transition.Applied(s, id, T.Cancel(actor), allowed)
            == if allowed == 0 then Ran(s, 0, Failed(Unavailable))
               else if n == |ids| then PerformOne(closed, Note(id, "canceled by " + actor), allowed - 1 - n)
               else Ran(closed, 0, Failed(Unavailable))
  {
    hide T.Task.Apply, Perform, Transition.RunEffects, Transition.EffectWrites, ListUpTo, Transition.MergesNaming;
    var was := s.TaskOf(id);
    var now := was.(state := T.Canceled(actor));
    CancelTable(was, actor);
    Transition.CloseMergesMeans(s, id, 0);
    PerformCons(s, SetMeta(id, MetaOf(now)), [], allowed);
    assert Transition.Persisted(id, was, now) == [SetMeta(id, MetaOf(now))];
    if allowed > 0 {
      var persisted := s.With(id, s.beads[id].(meta := Some(MetaOf(now))));
      SameListing(s, persisted, Merge, s.next);
      SameNaming(s, persisted, Listing(s, Merge), id);
      Transition.CloseMergesMeans(persisted, id, allowed - 1);
      CloseEffect(persisted, id);
      var text := "canceled by " + actor;
      CancelEffects(persisted, id, T.AppendNote(id, text), allowed - 1);
      var ids := Transition.MergesNaming(s, Listing(s, Merge), id);
      var n := if allowed - 1 < |ids| then allowed - 1 else |ids|;
      var closed := Transition.WithClosed(persisted, ids[..n]);
      assert n == |ids| ==> ids[..n] == ids;
    }
  }

  /** Metadata set, beads closed, a note appended. */
  lemma ClosedThenNoted(s: Store, id: BeadId, meta: Meta, ids: seq<BeadId>, n: nat, text: string, left: nat)
    requires id in s.beads && n <= |ids| && id !in ids
    ensures var closed := Transition.WithClosed(s.With(id, s.beads[id].(meta := Some(meta))), ids[..n]);
            var r := PerformOne(closed, Note(id, text), left);
            && ClosedFirst(s, id, meta, ids[..n], closed) && closed.beads[id].notes == s.beads[id].notes
            && ClosedFirst(s, id, meta, ids[..n], r.store) && (r.ended.Done? <==> left > 0)
            && (left > 0 ==> r.store.beads[id].notes == Some(AppendedNote(s.beads[id].notes, text)))
  {
    assert id !in ids[..n];
  }

  lemma CloseEffect(s: Store, id: BeadId)
    ensures Transition.EffectWrites(s, T.CloseMergeBeads(id)) == Transition.MergeCloses(s, Listing(s, Merge), id)
  {
  }

  lemma CancelEffects(s: Store, id: BeadId, note: T.Effect, allowed: nat)
    requires note.AppendNote? && note.task == id
    ensures var closed := Perform(s, Transition.EffectWrites(s, T.CloseMergeBeads(id)), allowed);
            Transition.RunEffects(s, [T.CloseMergeBeads(id), note], allowed)
            == if closed.ended.Done? then PerformOne(closed.store, Note(id, note.note), closed.left) else closed
  {
    var effects := [T.CloseMergeBeads(id), note];
    assert effects[1..] == [note] && effects[1..][1..] == [];
    var closed := Perform(s, Transition.EffectWrites(s, effects[0]), allowed);
    PerformCons(closed.store, Note(id, note.note), [], closed.left);
    var last := PerformOne(closed.store, Note(id, note.note), closed.left);
    assert Transition.EffectWrites(closed.store, note) == [Note(id, note.note)];
    assert Transition.RunEffects(closed.store, [note], closed.left) == last by {
      if last.ended.Done? {
        assert Transition.RunEffects(last.store, [note][1..], last.left) == last;
      }
    }
  }
}
