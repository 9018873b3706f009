// The sequential workflow is one schedule of the protocol: whatever the store object does in one call
// of `ApplyEvent`, dying after any number of writes, the protocol does by firing the event and then
// running the waiting thread for some number of items.
module ApplyRuns {
  import opened Ids
  import opened Ledger
  import opened Protocol
  import T = Task
  import Transition

  /** Run the next `k` items of thread `i`. */
  function Drain(s: Sys, i: nat, k: nat): Sys
    decreases k
  {
    if k == 0 then s else Drain(Next(s, Progress(i)), i, k - 1)
  }

  lemma {:induction false} DrainOn(s: Sys, i: nat, j: nat, k: nat)
    ensures Drain(Drain(s, i, j), i, k) == Drain(s, i, j + k)
    decreases j
  {
    hide Next;
    if j > 0 {
      DrainOn(Next(s, Progress(i)), i, j - 1, k);
    }
  }

  /** `s` with another store and another rest of thread `i`. */
  function At(s: Sys, i: nat, store: Store, rest: seq<Todo>): Sys
    requires i < |s.threads|
  {
    s.(store := store, threads := s.threads[i := rest])
  }

  /** Draining reaches the store that the run `r` left; where the run was done, with `rest` left over. */
  ghost predicate Reaches(s: Sys, i: nat, r: Ran, rest: seq<Todo>)
    requires i < |s.threads|
  {
    exists k: nat, left: seq<Todo> ::
      && Drain(s, i, k) == At(s, i, r.store, left)
      && (r.ended.Done? ==> left == rest)
  }

  lemma Progresses(s: Sys, i: nat, k: nat)
    requires i < |s.threads| && s.threads[i] != []
    ensures Next(s, Progress(i)) == Advance(s, i)
    ensures Drain(s, i, k + 1) == Drain(Advance(s, i), i, k)
  {
    hide Advance;
  }

  /** What is reached after one more item is reached. */
  lemma ReachesAfterOne(s: Sys, i: nat, r: Ran, rest: seq<Todo>)
    requires i < |s.threads| && s.threads[i] != []
    requires Advance(s, i) == At(s, i, Advance(s, i).store, Advance(s, i).threads[i])
    requires Reaches(Advance(s, i), i, r, rest)
    ensures Reaches(s, i, r, rest)
  {
    hide Drain, Advance;
    var next := Advance(s, i);
    var k: nat, left: seq<Todo> :|
      && Drain(next, i, k) == At(next, i, r.store, left)
      && (r.ended.Done? ==> left == rest);
    Progresses(s, i, k);
    assert Drain(s, i, k + 1) == At(s, i, r.store, left);
  }

  /** A run whose first part is reached, and whose second part is reached from there, is reached. */
  lemma ReachesOn(s: Sys, i: nat, first: Ran, between: seq<Todo>, r: Ran, rest: seq<Todo>)
    requires i < |s.threads| && Reaches(s, i, first, between)
    requires first.ended.Done? ==> Reaches(At(s, i, first.store, between), i, r, rest)
    requires !first.ended.Done? ==> r == first
    ensures Reaches(s, i, r, rest)
  {
    hide Drain;
    if first.ended.Done? {
      var j: nat :| Drain(s, i, j) == At(s, i, first.store, between);
      var mid := At(s, i, first.store, between);
      var k: nat, left: seq<Todo> :|
        && Drain(mid, i, k) == At(mid, i, r.store, left)
        && (r.ended.Done? ==> left == rest);
      DrainOn(s, i, j, k);
      assert Drain(s, i, j + k) == At(s, i, r.store, left);
    }
  }

  lemma {:induction false} DrainWrites(s: Sys, i: nat, writes: seq<Write>, rest: seq<Todo>, allowed: nat)
    requires i < |s.threads| && s.threads[i] == Writes(writes) + rest
    ensures Reaches(s, i, Perform(s.store, writes, allowed), rest)
    decreases |writes|
  {
    hide Next;
    assert Drain(s, i, 0) == At(s, i, s.store, s.threads[i]);
    if writes == [] {
      assert Writes(writes) + rest == rest;
    } else {
      var one := PerformOne(s.store, writes[0], allowed);
      if one.ended.Done? {
        assert s.threads[i][0] == Do(writes[0]);
        assert s.threads[i][1..] == Writes(writes[1..]) + rest;
        var next := Advance(s, i);
        assert next == At(s, i, one.store, Writes(writes[1..]) + rest);
        DrainWrites(next, i, writes[1..], rest, one.left);
        ReachesAfterOne(s, i, Perform(s.store, writes, allowed), rest);
      }
    }
  }

  lemma {:induction false} DrainEffects(s: Sys, i: nat, effects: seq<T.Effect>, rest: seq<Todo>, allowed: nat)
    requires i < |s.threads| && s.threads[i] == Effects(effects) + rest
    ensures Reaches(s, i, Transition.RunEffects(s.store, effects, allowed), rest)
    decreases |effects|
  {
    hide Next, Transition.EffectWrites, Perform, Drain;
    if effects == [] {
      NothingToDrain(s, i, allowed);
      assert Effects(effects) + rest == rest;
    } else {
      var writes := Transition.EffectWrites(s.store, effects[0]);
      var first := Perform(s.store, writes, allowed);
      var whole := Transition.RunEffects(s.store, effects, allowed);
      var later := Effects(effects[1..]) + rest;
      assert s.threads[i][1..] == later;
      var unfolded := Advance(s, i);
      assert unfolded == At(s, i, s.store, Writes(writes) + later);
      DrainWrites(unfolded, i, writes, later, allowed);
      if first.ended.Done? {
        DrainEffects(At(unfolded, i, first.store, later), i, effects[1..], rest, first.left);
      }
      ReachesOn(unfolded, i, first, later, whole, rest);
      ReachesAfterOne(s, i, whole, rest);
    }
  }

  lemma NothingToDrain(s: Sys, i: nat, allowed: nat)
    requires i < |s.threads|
    ensures Reaches(s, i, Ran(s.store, allowed, Done), s.threads[i])
  {
    assert Drain(s, i, 0) == At(s, i, s.store, s.threads[i]);
  }

  /** The workflow and, if it ran to its end, the writes `after` it. */
  function AppliedThen(s: Store, id: BeadId, event: T.Event, after: seq<Write>, allowed: nat): Ran {
    var applied := Transition.Applied(s, id, event, allowed);
    if applied.ended.Done? then Perform(applied.store, after, applied.left) else applied
  }

  /** Every accepted call of the workflow that persists anything, with whatever the caller writes after it,
      ends in a ledger the protocol reaches by firing the event and draining its thread. */
  lemma ApplyEventIsARun(s: Sys, id: BeadId, event: T.Event, after: seq<Write>, allowed: nat)
    requires allowed > 0 && s.store.IsTask(id) && s.store.TaskOf(id).Apply(event).Accepted?
    ensures |Fire(s, id, event, Writes(after)).threads| == |s.threads| + 1
    ensures Reaches(Fire(s, id, event, Writes(after)), |s.threads|, AppliedThen(s.store, id, event, after, allowed), [])
  {
    hide T.Task.Apply, Next, Transition.RunEffects, Reaches;
    var was := s.store.TaskOf(id);
    var Accepted(now, effects) := was.Apply(event);
    var fired := Fire(s, id, event, Writes(after));
    var i := |s.threads|;
    var unclaim := if now.state.Open? && !was.state.Open? then [Unclaim(id)] else [];
    var whole := AppliedThen(s.store, id, event, after, allowed);
    PerformCons(s.store, SetMeta(id, MetaOf(now)), unclaim, allowed);
    var persisted := Perform(fired.store, unclaim, allowed - 1);
    var later := Effects(effects) + Writes(after);
    assert fired.threads[i] == Writes(unclaim) + later;
    DrainWrites(fired, i, unclaim, later, allowed - 1);
    if persisted.ended.Done? {
      var mid := At(fired, i, persisted.store, later);
      var applied := Transition.RunEffects(persisted.store, effects, persisted.left);
      DrainEffects(mid, i, effects, Writes(after), persisted.left);
      if applied.ended.Done? {
        assert Writes(after) + [] == Writes(after);
        DrainWrites(At(mid, i, applied.store, Writes(after)), i, after, [], applied.left);
      }
      ReachesOn(mid, i, applied, Writes(after), whole, []);
    }
    ReachesOn(fired, i, persisted, later, whole, []);
  }
}
