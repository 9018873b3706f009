// The Planner's writes: an epic, an optional reference bead, then the tasks in plan order, each with a
// verify bead that waits for it.
module Planner {
  import opened Ids
  import opened Budget
  import opened Ledger
  import P = Plan
  import Topo = Toposort
  import T = Task

  /** Every need of a task is an earlier task of the list. */
  ghost predicate NeedsEarlier(tasks: seq<P.PlannedTask>) {
    forall i, k :: 0 <= i < |tasks| && k in tasks[i].needs ==> KeyBefore(tasks, i, k)
  }

  ghost predicate KeyBefore(tasks: seq<P.PlannedTask>, i: nat, k: P.TaskKey) {
    exists j :: 0 <= j < i && j < |tasks| && tasks[j].key == k
  }

  /** What validation hands over is such a list. */
  lemma TopologicalIsNeedsEarlier(tasks: seq<P.PlannedTask>, order: seq<nat>)
    requires P.Resolved(tasks) && Topo.IsTopological(tasks, order)
    ensures var arranged := Topo.Arranged(tasks, order);
            P.DistinctKeys(arranged) && NeedsEarlier(arranged)
  {
    var arranged := Topo.Arranged(tasks, order);
    forall i, k | 0 <= i < |arranged| && k in arranged[i].needs
      ensures KeyBefore(arranged, i, k)
    {
      assert P.HasKey(tasks, k);
      var b: nat :| b < |tasks| && tasks[b].key == k;
      assert Topo.Edge(tasks, order[i], b);
      var j :| 0 <= j < i && order[j] == b;
      assert arranged[j].key == k;
    }
    forall i, j | 0 <= i < j < |arranged|
      ensures arranged[i].key != arranged[j].key
    {
      assert order[i] != order[j];
    }
  }

  // ---- what is in the ledger ------------------------------------------------------------------------------------

  /** The plan's facts that every created bead carries. */
  datatype Context = Context(before: Store, epic: BeadId, base: Sha, tasks: seq<P.PlannedTask>)

  /** The blockers of task `i`: for each need, in order, the bead of the task with that key. */
  ghost predicate EdgesOf(tasks: seq<P.PlannedTask>, made: seq<BeadId>, i: nat, needs: seq<BeadId>)
    requires i < |tasks| && i <= |made| <= |tasks|
  {
    && |needs| == |tasks[i].needs|
    && forall m :: 0 <= m < |needs| ==> IsBeadOf(tasks, made, i, tasks[i].needs[m], needs[m])
  }

  /** `bead` was made for the task with `key`, one of the first `n`. */
  ghost predicate IsBeadOf(tasks: seq<P.PlannedTask>, made: seq<BeadId>, n: nat, key: P.TaskKey, bead: BeadId)
    requires n <= |made| <= |tasks|
  {
    exists j :: 0 <= j < n && tasks[j].key == key && made[j] == bead
  }

  /** The bead of task `i`: claimable work in the epic, fresh, with a verify bead and all its blockers. */
  ghost predicate TaskMade(c: Context, s: Store, made: seq<BeadId>, i: nat)
    requires i < |made| <= |c.tasks|
  {
    var t := c.tasks[i];
    && made[i] in s.beads && EdgesOf(c.tasks, made, i, s.NeedsOf(made[i]))
    && var b := s.beads[made[i]];
    && b.kind == Some(Task) && b.parent == Some(c.epic) && b.title == t.title && b.status.Open?
    && b.meta.Some?
    && var v := b.meta.value.verifyBead;
    && b.meta.value == Meta(v, c.base, t.budget, NO_USAGE, 0, 0, T.Open)
    && c.before.next <= v < made[i] && v in s.beads && s.beads[v].kind == Some(Verify)
  }

  /** Its verify bead names it, carries its commands and waits for it. */
  ghost predicate VerifyMade(c: Context, s: Store, made: seq<BeadId>, i: nat)
    requires i < |made| <= |c.tasks| && TaskMade(c, s, made, i)
  {
    var v := s.beads[made[i]].meta.value.verifyBead;
    && s.beads[v].verify == Some(VerifyMeta(made[i], c.tasks[i].verify, c.tasks[i].verifyTimeout))
    && s.beads[v].parent == Some(c.epic) && s.beads[v].status.Open? && s.NeedsOf(v) == [made[i]]
    && s.beads[v].title == "verify: " + c.tasks[i].title
  }

  /** The verify data of `x`, if it has any, is that of one of the tasks made. */
  ghost predicate HasOwnVerifyData(c: Context, s: Store, made: seq<BeadId>, x: BeadId)
    requires x in s.beads && |made| <= |c.tasks|
  {
    s.beads[x].verify.Some? ==> exists i :: 0 <= i < |made| && IsVerifyData(c, s.beads[x].verify.value, made, i)
  }

  predicate IsVerifyData(c: Context, verify: VerifyMeta, made: seq<BeadId>, i: nat)
    requires i < |made| <= |c.tasks|
  {
    verify == VerifyMeta(made[i], c.tasks[i].verify, c.tasks[i].verifyTimeout)
  }

  /** The ledger part way: what was there is as it was, tasks were only created for the plan, the first
      `linked` of them have their verify beads. */
  ghost predicate Made(c: Context, s: Store, made: seq<BeadId>, linked: nat) {
    && c.before.Valid() && s.Valid() && c.before.next <= s.next
    && linked <= |made| <= |c.tasks|
    && (forall x :: x in c.before.beads ==>
          x in s.beads && s.beads[x] == c.before.beads[x] && s.NeedsOf(x) == c.before.NeedsOf(x))
    && (forall x :: x in s.beads && x !in c.before.beads ==>
          && c.before.next <= x && s.beads[x].kind.Some? && HasOwnVerifyData(c, s, made, x)
          && if s.beads[x].kind.value.Task? then x in made else s.beads[x].meta.None?)
    && (forall i, j :: 0 <= i < j < |made| ==> made[i] < made[j])
    && (forall i :: 0 <= i < |made| ==> TaskMade(c, s, made, i))
    && forall i :: 0 <= i < linked ==> VerifyMade(c, s, made, i)
  }

  // ---- each write keeps it ------------------------------------------------------------------------------------------

  /** The bead, its blockers and its verify bead's kind are all that counts. */
  lemma TaskCarries(c: Context, s: Store, after: Store, made: seq<BeadId>, i: nat)
    requires i < |made| <= |c.tasks| && TaskMade(c, s, made, i)
    requires made[i] in after.beads && after.beads[made[i]] == s.beads[made[i]]
             && after.NeedsOf(made[i]) == s.NeedsOf(made[i])
    requires var v := s.beads[made[i]].meta.value.verifyBead;
             v in after.beads && after.beads[v].kind == s.beads[v].kind
    ensures TaskMade(c, after, made, i)
    ensures var v := s.beads[made[i]].meta.value.verifyBead;
            VerifyMade(c, s, made, i) && after.beads[v] == s.beads[v] && after.NeedsOf(v) == s.NeedsOf(v) ==>
              VerifyMade(c, after, made, i)
  {
    hide EdgesOf;
  }

  /** A bead that is not a task. */
  /** What a bead says of verify data is its own affair, and a new bead says nothing. */
  lemma VerifyDataCarries(c: Context, s: Store, after: Store, made: seq<BeadId>, x: BeadId)
    requires x in after.beads && |made| <= |c.tasks|
    requires if x in s.beads then after.beads[x] == s.beads[x] && HasOwnVerifyData(c, s, made, x)
             else after.beads[x].verify.None?
    ensures HasOwnVerifyData(c, after, made, x)
  {
  }

  lemma CreateKeeps(c: Context, s: Store, made: seq<BeadId>, linked: nat, bead: NewBead)
    requires Made(c, s, made, linked) && !bead.kind.Task? && bead.meta.None?
    ensures Made(c, Written(s, Create(bead)).value, made, linked)
  {
    hide TaskMade, VerifyMade, HasOwnVerifyData;
    var after := Written(s, Create(bead)).value;
    forall x | x in after.beads && x !in c.before.beads
      ensures HasOwnVerifyData(c, after, made, x)
    {
      VerifyDataCarries(c, s, after, made, x);
    }
    forall i | 0 <= i < |made|
      ensures TaskMade(c, after, made, i) && (i < linked ==> VerifyMade(c, after, made, i))
    {
      TaskFacts(c, s, made, i);
      TaskCarries(c, s, after, made, i);
    }
  }

  lemma TaskFacts(c: Context, s: Store, made: seq<BeadId>, i: nat)
    requires i < |made| <= |c.tasks| && TaskMade(c, s, made, i)
    ensures made[i] in s.beads && s.beads[made[i]].kind == Some(Task) && s.beads[made[i]].meta.Some?
    ensures var v := s.beads[made[i]].meta.value.verifyBead;
            c.before.next <= v < made[i] && v in s.beads && s.beads[v].kind == Some(Verify)
  {
    hide EdgesOf;
  }

  predicate IsNotVerifyOf(s: Store, task: BeadId, id: BeadId) {
    task in s.beads && s.beads[task].meta.Some? && s.beads[task].meta.value.verifyBead != id
  }

  /** Writes to a bead of this plan that is neither a task nor a linked verify bead. */
  lemma WriteKeeps(c: Context, s: Store, made: seq<BeadId>, linked: nat, w: Write)
    requires Made(c, s, made, linked)
    requires w.Close? || w.AddNeeds?
          || (w.SetVerify? && exists i :: 0 <= i < |made| && IsVerifyData(c, w.verify, made, i))
    requires w.id in s.beads && w.id !in c.before.beads && s.beads[w.id].kind != Some(Task)
    requires forall i :: 0 <= i < linked ==> IsNotVerifyOf(s, made[i], w.id)
    ensures Made(c, Written(s, w).value, made, linked)
  {
    hide TaskMade, VerifyMade;
    var after := Written(s, w).value;
    assert after.beads.Keys == s.beads.Keys;
    forall x | x in s.beads
      ensures after.beads[x].kind == s.beads[x].kind && after.beads[x].meta == s.beads[x].meta
      ensures x != w.id ==> after.beads[x] == s.beads[x] && after.NeedsOf(x) == s.NeedsOf(x)
    {
    }
    forall i | 0 <= i < |made|
      ensures TaskMade(c, after, made, i) && (i < linked ==> VerifyMade(c, after, made, i))
    {
      TaskFacts(c, s, made, i);
      TaskCarries(c, s, after, made, i);
    }
  }

  function TaskBead(c: Context, i: nat, verify: BeadId, needs: seq<BeadId>): NewBead
    requires i < |c.tasks|
  {
    var t := c.tasks[i];
    NewBead(Task, t.title, Some(c.epic), needs, Some(Meta(verify, c.base, t.budget, NO_USAGE, 0, 0, T.Open)), None)
  }

  lemma EdgesStay(tasks: seq<P.PlannedTask>, made: seq<BeadId>, last: BeadId, i: nat, needs: seq<BeadId>)
    requires i < |tasks| && i <= |made| < |tasks| && EdgesOf(tasks, made, i, needs)
    ensures EdgesOf(tasks, made + [last], i, needs)
  {
    forall m | 0 <= m < |needs|
      ensures IsBeadOf(tasks, made + [last], i, tasks[i].needs[m], needs[m])
    {
      assert IsBeadOf(tasks, made, i, tasks[i].needs[m], needs[m]);
      var j :| 0 <= j < i && tasks[j].key == tasks[i].needs[m] && made[j] == needs[m];
      assert (made + [last])[j] == needs[m];
    }
  }

  /** One more made bead: what was made stays made. */
  lemma MadeStays(c: Context, s: Store, made: seq<BeadId>, last: BeadId, i: nat)
    requires i < |made| < |c.tasks| && TaskMade(c, s, made, i)
    ensures TaskMade(c, s, made + [last], i)
    ensures VerifyMade(c, s, made, i) ==> VerifyMade(c, s, made + [last], i)
  {
    EdgesStay(c.tasks, made, last, i, s.NeedsOf(made[i]));
  }

  lemma VerifyDataStays(c: Context, s: Store, made: seq<BeadId>, last: BeadId, x: BeadId)
    requires x in s.beads && |made| < |c.tasks| && HasOwnVerifyData(c, s, made, x)
    ensures HasOwnVerifyData(c, s, made + [last], x)
  {
    if s.beads[x].verify.Some? {
      var i :| 0 <= i < |made| && IsVerifyData(c, s.beads[x].verify.value, made, i);
      assert (made + [last])[i] == made[i];
      assert IsVerifyData(c, s.beads[x].verify.value, made + [last], i);
    }
  }

  /** The next task, its verify bead just created, its blockers looked up. */
  lemma TaskKeeps(c: Context, s: Store, made: seq<BeadId>, verify: BeadId, needs: seq<BeadId>)
    requires Made(c, s, made, |made|) && |made| < |c.tasks|
    requires verify in s.beads && c.before.next <= verify && s.beads[verify].kind == Some(Verify)
    requires EdgesOf(c.tasks, made, |made|, needs)
    ensures Made(c, Written(s, Create(TaskBead(c, |made|, verify, needs))).value, made + [s.next], |made|)
  {
    hide TaskMade, VerifyMade, EdgesOf, HasOwnVerifyData;
    var after := Written(s, Create(TaskBead(c, |made|, verify, needs))).value;
    var more := made + [s.next];
    forall i | 0 <= i < |made|
      ensures TaskMade(c, after, more, i) && VerifyMade(c, after, more, i) && made[i] < s.next
    {
      TaskFacts(c, s, made, i);
      TaskCarries(c, s, after, made, i);
      MadeStays(c, after, made, s.next, i);
    }
    forall x | x in after.beads && x !in c.before.beads
      ensures HasOwnVerifyData(c, after, more, x)
    {
      if x in s.beads {
        VerifyDataStays(c, s, made, s.next, x);
      }
      VerifyDataCarries(c, s, after, more, x);
    }
    EdgesStay(c.tasks, made, s.next, |made|, needs);
    NewTaskIsMade(c, s, made, verify, needs);
  }

  lemma NewTaskIsMade(c: Context, s: Store, made: seq<BeadId>, verify: BeadId, needs: seq<BeadId>)
    requires s.Valid() && |made| < |c.tasks| && verify in s.beads && c.before.next <= verify
             && s.beads[verify].kind == Some(Verify)
    requires EdgesOf(c.tasks, made + [s.next], |made|, needs)
    ensures TaskMade(c, Written(s, Create(TaskBead(c, |made|, verify, needs))).value, made + [s.next], |made|)
  {
    hide EdgesOf;
  }

  /** The last task's verify bead now names it, carries its commands and waits for it. */
  lemma LinkKeeps(c: Context, s: Store, made: seq<BeadId>, verify: BeadId)
    requires made != [] && Made(c, s, made, |made| - 1) && made[|made| - 1] in s.beads
    requires s.beads[made[|made| - 1]].meta.Some? && s.beads[made[|made| - 1]].meta.value.verifyBead == verify
             && verify in s.beads
    requires s.beads[verify].verify == Some(VerifyMeta(made[|made| - 1], c.tasks[|made| - 1].verify,
                                                       c.tasks[|made| - 1].verifyTimeout))
    requires s.beads[verify].parent == Some(c.epic) && s.beads[verify].status.Open?
             && s.NeedsOf(verify) == [made[|made| - 1]]
             && s.beads[verify].title == "verify: " + c.tasks[|made| - 1].title
    ensures Made(c, s, made, |made|)
  {
    hide EdgesOf;
  }

  // ---- the Planner's code -------------------------------------------------------------------------------------------

  /** Nothing that was in `a` changed. */
  ghost predicate Kept(a: Store, b: Store) {
    a.next <= b.next && forall x :: x in a.beads ==>
      x in b.beads && b.beads[x] == a.beads[x] && b.NeedsOf(x) == a.NeedsOf(x)
  }

  /** The writes of one task, if the next free bead is `verify`: an empty verify bead, the task that names it with its
      blockers, the verify bead's own task and commands, its wait for the task. */
  function TaskWrites(epic: BeadId, base: Sha, t: P.PlannedTask, needs: seq<BeadId>, verify: BeadId): seq<Write> {
    [Create(NewBead(Verify, "verify: " + t.title, Some(epic), [], None, None)),
     Create(NewBead(Task, t.title, Some(epic), needs, Some(Meta(verify, base, t.budget, NO_USAGE, 0, 0, T.Open)),
                    None)),
     SetVerify(verify, VerifyMeta(verify + 1, t.verify, t.verifyTimeout)),
     AddNeeds(verify, verify + 1)]
  }

  lemma FourWrites(s: Store, writes: seq<Write>, allowed: nat)
    requires |writes| == 4
    ensures var one := PerformOne(s, writes[0], allowed);
            var two := PerformOne(one.store, writes[1], one.left);
            var three := PerformOne(two.store, writes[2], two.left);
            Perform(s, writes, allowed)
            == if one.ended.Failed? then one else if two.ended.Failed? then two else if three.ended.Failed? then three
               else PerformOne(three.store, writes[3], three.left)
  {
    hide PerformOne;
    assert writes == [writes[0]] + ([writes[1]] + ([writes[2]] + [writes[3]]));
    var one := PerformOne(s, writes[0], allowed);
    var two := PerformOne(one.store, writes[1], one.left);
    var three := PerformOne(two.store, writes[2], two.left);
    PerformCons(s, writes[0], [writes[1]] + ([writes[2]] + [writes[3]]), allowed);
    PerformCons(one.store, writes[1], [writes[2]] + [writes[3]], one.left);
    PerformCons(two.store, writes[2], [writes[3]], two.left);
    PerformCons(three.store, writes[3], [], three.left);
  }

  /** One task: its verify bead first, so that the task can name it, then the task with its blockers, then
      the verify bead's own task, commands and wait. */
  method CreateTask(store: BeadStore, epic: BeadId, base: Sha, t: P.PlannedTask, needs: seq<BeadId>,
                    ghost c: Context, ghost made: seq<BeadId>)
      returns (ended: Ended, id: BeadId, ghost more: seq<BeadId>)
    requires store.Valid() && Made(c, store.View(), made, |made|) && |made| < |c.tasks|
    requires c.epic == epic && c.base == base && c.tasks[|made|] == t && EdgesOf(c.tasks, made, |made|, needs)
    modifies store
    ensures store.Valid() && Kept(old(store.View()), store.View())
    ensures Ran(store.View(), store.writesAllowed, ended)
         == Perform(old(store.View()), TaskWrites(epic, base, t, needs, old(store.View()).next),
                    old(store.writesAllowed))
    ensures Made(c, store.View(), more, if ended.Done? then |more| else |made|)
    ensures ended.Done? ==> more == made + [id] && store.View().NeedsOf(id) == needs
    ensures ended.Done? ==> store.View().next == old(store.View()).next + 2
  {
    hide Made, EdgesOf, Kept, Perform;
    KeptSelf(store.View());
    ghost var s0 := store.View();
    FourWrites(s0, TaskWrites(epic, base, t, needs, s0.next), store.writesAllowed);
    MadeFacts(c, s0, made, |made|);
    more, id := made, 0;
    var verify := store.next;
    var placeholder := NewBead(Verify, "verify: " + t.title, Some(epic), [], None, None);
    CreateKeeps(c, s0, made, |made|, placeholder);
    WriteKept(s0, s0, Create(placeholder), store.writesAllowed);
    ended := store.Do(Create(placeholder));
    if ended.Failed? {
      return;
    }
    ghost var s1 := store.View();
    id := store.next;
    var task := NewBead(Task, t.title, Some(epic), needs, Some(Meta(verify, base, t.budget, NO_USAGE, 0, 0, T.Open)),
                        None);
    TaskKeeps(c, s1, made, verify, needs);
    WriteKept(s0, s1, Create(task), store.writesAllowed);
    ended := store.Do(Create(task));
    if ended.Failed? {
      return;
    }
    ghost var s2 := store.View();
    more := made + [id];
    var linking := SetVerify(verify, VerifyMeta(id, t.verify, t.verifyTimeout));
    assert IsVerifyData(c, linking.verify, more, |made|);
    WriteKeeps(c, s2, more, |made|, linking);
    WriteKept(s0, s2, linking, store.writesAllowed);
    ended := store.Do(linking);
    if ended.Failed? {
      return;
    }
    ghost var s3 := store.View();
    WriteKeeps(c, s3, more, |made|, AddNeeds(verify, id));
    WriteKept(s0, s3, AddNeeds(verify, id), store.writesAllowed);
    ended := store.Do(AddNeeds(verify, id));
    if ended.Failed? {
      return;
    }
    LinkKeeps(c, store.View(), more, verify);
  }

  lemma KeptSelf(s: Store)
    ensures Kept(s, s)
  {
  }

  /** A write to a bead that was not there before keeps what was. */
  lemma WriteKept(a: Store, b: Store, w: Write, allowed: nat)
    requires a.Valid() && b.Valid() && Kept(a, b) && (w.Create? || w.id !in a.beads)
    ensures Kept(a, PerformOne(b, w, allowed).store)
  {
  }

  lemma MadeFacts(c: Context, s: Store, made: seq<BeadId>, linked: nat)
    requires Made(c, s, made, linked)
    ensures s.Valid() && c.before.next <= s.next && |made| <= |c.tasks|
    ensures c.before.Valid() && forall x :: x in c.before.beads ==> x in s.beads
    ensures forall i :: 0 <= i < |made| ==>
              made[i] in s.beads && s.beads[made[i]].meta.Some? && s.beads[made[i]].meta.value.verifyBead < s.next
  {
    hide EdgesOf;
    forall i | 0 <= i < |made|
      ensures made[i] in s.beads && s.beads[made[i]].meta.Some? && s.beads[made[i]].meta.value.verifyBead < s.next
    {
      TaskFacts(c, s, made, i);
    }
  }

  datatype PlanReport = PlanReport(epic: BeadId, tasks: map<P.TaskKey, BeadId>, edges: seq<(BeadId, seq<BeadId>)>)

  function EpicBead(plan: P.Plan): NewBead {
    NewBead(Epic, plan.summary, None, [], None, None)
  }

  function ReferenceBead(plan: P.Plan, epic: BeadId): NewBead {
    NewBead(Reference, "reference: " + plan.summary, Some(epic), [], None, None)
  }

  /** The blockers of task `i`, looked up among the beads made so far: none is missing. */
  method LookUp(ids: map<P.TaskKey, BeadId>, t: P.PlannedTask, ghost tasks: seq<P.PlannedTask>, ghost made: seq<BeadId>)
      returns (needs: seq<BeadId>)
    requires |made| < |tasks| && tasks[|made|] == t && P.DistinctKeys(tasks) && NeedsEarlier(tasks)
    requires forall k :: k in ids <==> KeyBefore(tasks, |made|, k)
    requires forall j :: 0 <= j < |made| ==> tasks[j].key in ids && ids[tasks[j].key] == made[j]
    ensures EdgesOf(tasks, made, |made|, needs)
  {
    needs := [];
    for m := 0 to |t.needs|
      invariant |needs| == m
      invariant forall k :: 0 <= k < m ==> IsBeadOf(tasks, made, |made|, t.needs[k], needs[k])
    {
      assert KeyBefore(tasks, |made|, t.needs[m]);
      if t.needs[m] in ids {
        needs := needs + [ids[t.needs[m]]];
      }
    }
  }

  /** The tasks made so far, under their keys, with the edges recorded for them. */
  ghost predicate Recorded(tasks: seq<P.PlannedTask>, s: Store, made: seq<BeadId>, ids: map<P.TaskKey, BeadId>,
                           edges: seq<(BeadId, seq<BeadId>)>) {
    && |edges| == |made| <= |tasks|
    && (forall k :: k in ids <==> KeyBefore(tasks, |made|, k))
    && forall j :: 0 <= j < |made| ==>
         && tasks[j].key in ids && ids[tasks[j].key] == made[j]
         && made[j] in s.beads && edges[j] == (made[j], s.NeedsOf(made[j]))
  }

  lemma RecordedNext(tasks: seq<P.PlannedTask>, s: Store, after: Store, made: seq<BeadId>, ids: map<P.TaskKey, BeadId>,
                     edges: seq<(BeadId, seq<BeadId>)>, id: BeadId)
    requires Recorded(tasks, s, made, ids, edges) && P.DistinctKeys(tasks) && |made| < |tasks|
    requires Kept(s, after) && id in after.beads
    ensures Recorded(tasks, after, made + [id], ids[tasks[|made|].key := id], edges + [(id, after.NeedsOf(id))])
  {
    var n, key := |made|, tasks[|made|].key;
    assert |made + [id]| == n + 1;
    forall k
      ensures KeyBefore(tasks, n + 1, k) <==> k == key || KeyBefore(tasks, n, k)
    {
      if KeyBefore(tasks, n + 1, k) && k != key {
        var j :| 0 <= j < n + 1 && tasks[j].key == k;
        assert j < n;
      }
      assert tasks[n].key == key;
    }
  }

  /** The tasks in plan order. */
  method CreateTasks(store: BeadStore, plan: P.Plan, epic: BeadId, base: Sha, ghost c: Context)
      returns (ended: Ended, ids: map<P.TaskKey, BeadId>, edges: seq<(BeadId, seq<BeadId>)>, ghost made: seq<BeadId>,
               ghost linked: nat)
    requires store.Valid() && P.DistinctKeys(plan.tasks) && NeedsEarlier(plan.tasks)
    requires c.epic == epic && c.base == base && c.tasks == plan.tasks && Made(c, store.View(), [], 0)
    modifies store
    ensures store.Valid() && Kept(old(store.View()), store.View()) && Made(c, store.View(), made, linked)
    ensures ended.Done? ==> linked == |plan.tasks| && Recorded(plan.tasks, store.View(), made, ids, edges)
    ensures ended.Done? ==> store.View().next == old(store.View()).next + 2 * |plan.tasks|
  {
    hide Made, EdgesOf, Recorded, Kept, NeedsEarlier, P.DistinctKeys;
    ended, ids, edges, made, linked := Done, map[], [], [], 0;
    NothingRecorded(plan.tasks, store.View());
    for i := 0 to |plan.tasks|
      invariant store.Valid() && ended.Done? && linked == i == |made|
      invariant Made(c, store.View(), made, i) && Kept(old(store.View()), store.View())
      invariant Recorded(plan.tasks, store.View(), made, ids, edges)
      invariant store.View().next == old(store.View()).next + 2 * i
    {
      ghost var s, so := store.View(), made;
      RecordedFacts(plan.tasks, s, made, ids, edges);
      var needs := LookUp(ids, plan.tasks[i], plan.tasks, made);
      var id;
      ended, id, made := CreateTask(store, epic, base, plan.tasks[i], needs, c, made);
      KeptTogether(old(store.View()), s, store.View());
      if ended.Failed? {
        return;
      }
      MadeFacts(c, store.View(), made, i + 1);
      assert made[i] == id;
      RecordedNext(plan.tasks, s, store.View(), so, ids, edges, id);
      edges := edges + [(id, needs)];
      ids := ids[plan.tasks[i].key := id];
      linked := i + 1;
    }
  }

  lemma KeptTogether(a: Store, b: Store, c: Store)
    requires Kept(a, b) && Kept(b, c)
    ensures Kept(a, c)
  {
  }

  lemma RecordedFacts(tasks: seq<P.PlannedTask>, s: Store, made: seq<BeadId>, ids: map<P.TaskKey, BeadId>,
                      edges: seq<(BeadId, seq<BeadId>)>)
    requires Recorded(tasks, s, made, ids, edges)
    ensures forall k :: k in ids <==> KeyBefore(tasks, |made|, k)
    ensures forall j :: 0 <= j < |made| ==> tasks[j].key in ids && ids[tasks[j].key] == made[j]
  {
  }

  lemma NothingRecorded(tasks: seq<P.PlannedTask>, s: Store)
    ensures Recorded(tasks, s, [], map[], []) && Kept(s, s)
  {
  }

  predicate IsEpicOf(plan: P.Plan, b: Bead) {
    b.kind == Some(Epic) && b.title == plan.summary && b.status.Open? && b.parent.None? && b.meta.None?
  }

  predicate IsReferenceOf(plan: P.Plan, epic: BeadId, b: Bead) {
    && b.kind == Some(Reference) && b.title == "reference: " + plan.summary && b.status.Closed?
    && b.parent == Some(epic) && b.meta.None?
  }

  /** Write a plan to the ledger. The store may die anywhere: whatever was created by then has all its
      blockers, and no bead that was there changed. */
  method Materialize(store: BeadStore, plan: P.Plan, base: Sha)
      returns (ended: Ended, report: PlanReport, ghost made: seq<BeadId>, ghost linked: nat)
    requires store.Valid() && P.DistinctKeys(plan.tasks) && NeedsEarlier(plan.tasks)
    modifies store
    ensures store.Valid()
    ensures report.epic == old(store.View()).next
    ensures Made(Context(old(store.View()), report.epic, base, plan.tasks), store.View(), made, linked)
    ensures ended.Done? ==>
              && linked == |plan.tasks| && Recorded(plan.tasks, store.View(), made, report.tasks, report.edges)
              && report.epic in store.View().beads && store.View().beads[report.epic] == EpicBead(plan).Created()
              && (plan.reference.Some? ==>
                    && report.epic + 1 in store.View().beads
                    && store.View().beads[report.epic + 1]
                         == ReferenceBead(plan, report.epic).Created().(status := Closed))
    ensures ended.Done? ==>
              store.View().next == report.epic + 1 + (if plan.reference.Some? then 1 else 0) + 2 * |plan.tasks|
    ensures ended.Done? ==> IsEpicOf(plan, store.View().beads[report.epic])
    ensures ended.Done? && plan.reference.Some? ==>
              IsReferenceOf(plan, report.epic, store.View().beads[report.epic + 1])
  {
    hide Made, EdgesOf, Recorded, NeedsEarlier, P.DistinctKeys, Perform;
    var epic := store.next;
    made, linked, report := [], 0, PlanReport(epic, map[], []);
    ghost var c := Context(store.View(), epic, base, plan.tasks);
    NothingMade(c);
    CreateKeeps(c, store.View(), [], 0, EpicBead(plan));
    ended := store.Do(Create(EpicBead(plan)));
    if ended.Failed? {
      return;
    }
    if plan.reference.Some? {
      var reference := store.next;
      CreateKeeps(c, store.View(), [], 0, ReferenceBead(plan, epic));
      ended := store.Do(Create(ReferenceBead(plan, epic)));
      if ended.Failed? {
        return;
      }
      WriteKeeps(c, store.View(), [], 0, Close(reference));
      ended := store.Do(Close(reference));
      if ended.Failed? {
        return;
      }
    }
    var ids, edges;
    ended, ids, edges, made, linked := CreateTasks(store, plan, epic, base, c);
    report := PlanReport(epic, ids, edges);
  }

  lemma NothingMade(c: Context)
    requires c.before.Valid()
    ensures Made(c, c.before, [], 0)
  {
  }
}
