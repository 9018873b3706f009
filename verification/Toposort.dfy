// Ordering a plan's tasks: Kahn's algorithm, which always takes the first ready task.
module Toposort {
  import opened Plan
  import opened Sequences

  // ---- the needs graph over task positions ------------------------------------------------------------------

  predicate Edge(tasks: seq<PlannedTask>, a: nat, b: nat) {
    a < |tasks| && b < |tasks| && tasks[b].key in tasks[a].needs
  }

  /** Positions each of which needs the next. */
  ghost predicate Walk(tasks: seq<PlannedTask>, w: seq<nat>) {
    && w != []
    && (forall i :: 0 <= i < |w| ==> w[i] < |tasks|)
    && forall i :: 0 <= i < |w| - 1 ==> Edge(tasks, w[i], w[i + 1])
  }

  ghost predicate Repeats(w: seq<nat>) {
    exists i, j :: 0 <= i < j < |w| && w[i] == w[j]
  }

  /** The task transitively depends on a cycle (or lies on one). */
  ghost predicate ReachesCycle(tasks: seq<PlannedTask>, p: nat) {
    exists w :: Walk(tasks, w) && w[0] == p && Repeats(w)
  }

  /** A closed walk. */
  ghost predicate IsCycle(tasks: seq<PlannedTask>, w: seq<nat>) {
    Walk(tasks, w) && |w| >= 2 && w[0] == w[|w| - 1]
  }

  ghost predicate Cyclic(tasks: seq<PlannedTask>) {
    exists w :: IsCycle(tasks, w)
  }

  lemma CyclicMeansSomeTaskReachesIt(tasks: seq<PlannedTask>)
    ensures Cyclic(tasks) <==> exists p: nat :: p < |tasks| && ReachesCycle(tasks, p)
  {
    if Cyclic(tasks) {
      var w :| IsCycle(tasks, w);
      assert w[0] == w[|w| - 1] && Repeats(w);
      assert ReachesCycle(tasks, w[0]);
    }
    if p: nat :| p < |tasks| && ReachesCycle(tasks, p) {
      var w :| Walk(tasks, w) && w[0] == p && Repeats(w);
      var i, j :| 0 <= i < j < |w| && w[i] == w[j];
      var cycle := w[i..j + 1];
      forall k | 0 <= k < |cycle| - 1
        ensures Edge(tasks, cycle[k], cycle[k + 1])
      {
        assert Edge(tasks, w[i + k], w[i + k + 1]);
      }
      assert IsCycle(tasks, cycle);
    }
  }

  // ---- orders -----------------------------------------------------------------------------------------------

  /** Distinct positions, each after everything it needs. */
  ghost predicate NeedsFirst(tasks: seq<PlannedTask>, order: seq<nat>) {
    && Distinct(order)
    && (forall i :: 0 <= i < |order| ==> order[i] < |tasks|)
    && forall i, b: nat :: 0 <= i < |order| && Edge(tasks, order[i], b) ==> b in order[..i]
  }

  ghost predicate IsTopological(tasks: seq<PlannedTask>, order: seq<nat>) {
    NeedsFirst(tasks, order) && forall p :: 0 <= p < |tasks| ==> p in order
  }

  /** `a` comes no later than `b` in lexicographic order. */
  ghost predicate LexLeq(a: seq<nat>, b: seq<nat>) {
    a <= b || exists k :: 0 <= k < |a| && k < |b| && a[..k] == b[..k] && a[k] < b[k]
  }

  /** Everything `p` needs has been taken. */
  ghost predicate Ready(tasks: seq<PlannedTask>, taken: seq<nat>, p: nat) {
    forall b: nat :: Edge(tasks, p, b) ==> b in taken
  }

  /** Each position was the smallest ready one when it was taken. */
  ghost predicate Greedy(tasks: seq<PlannedTask>, order: seq<nat>) {
    forall k, p: nat :: 0 <= k < |order| && p < order[k] && p !in order[..k] ==> !Ready(tasks, order[..k], p)
  }

  lemma {:induction false} Agreement(a: seq<nat>, b: seq<nat>) returns (k: nat)
    ensures k <= |a| && k <= |b| && a[..k] == b[..k]
    ensures k == |a| || k == |b| || a[k] != b[k]
  {
    k := 0;
    while k < |a| && k < |b| && a[k] == b[k]
      invariant k <= |a| && k <= |b| && a[..k] == b[..k]
    {
      k := k + 1;
    }
  }

  lemma NothingBeyond(order: seq<nat>, other: seq<nat>, k: nat)
    requires Distinct(order) && k == |other| <= |order| && order[..k] == other
    requires k < |order| ==> order[k] in other
    ensures k == |order|
  {
  }

  /** Where the orders part, the greedy one has the smaller position. */
  lemma GreedyIsSmaller(tasks: seq<PlannedTask>, order: seq<nat>, other: seq<nat>, k: nat)
    requires IsTopological(tasks, order) && Greedy(tasks, order) && IsTopological(tasks, other)
    requires k < |order| && k < |other| && order[..k] == other[..k] && order[k] != other[k]
    ensures order[k] < other[k]
  {
    hide Edge;
    var p := other[k];
    assert p !in other[..k];
    assert Ready(tasks, order[..k], p);
  }

  /** A greedy topological order is the lexicographically least one. */
  lemma GreedyIsLeast(tasks: seq<PlannedTask>, order: seq<nat>, other: seq<nat>)
    requires IsTopological(tasks, order) && Greedy(tasks, order) && IsTopological(tasks, other)
    ensures LexLeq(order, other)
  {
    hide Edge, Greedy;
    var k := Agreement(order, other);
    assert forall i :: 0 <= i < |order| ==> order[i] in other;
    if k == |order| {
      assert order == other[..k];
    } else if k == |other| {
      NothingBeyond(order, other, k);
    } else {
      GreedyIsSmaller(tasks, order, other, k);
    }
  }

  // ---- cycles keep tasks from being ordered -------------------------------------------------------------------

  /** A walk that starts among tasks already ordered goes strictly back in the order. */
  lemma {:induction false} WalkGoesBack(tasks: seq<PlannedTask>, order: seq<nat>, w: seq<nat>, at: nat)
      returns (where: seq<nat>)
    requires NeedsFirst(tasks, order) && Walk(tasks, w) && at < |order| && order[at] == w[0]
    ensures |where| == |w| && where[0] == at
    ensures forall i :: 0 <= i < |w| ==> where[i] < |order| && order[where[i]] == w[i]
    ensures forall i, j :: 0 <= i < j < |w| ==> where[j] < where[i]
    decreases |w|
  {
    if |w| == 1 {
      where := [at];
    } else {
      assert Edge(tasks, w[0], w[1]);
      var next :| 0 <= next < at && order[next] == w[1];
      assert Walk(tasks, w[1..]) by {
        forall i | 0 <= i < |w[1..]| - 1
          ensures Edge(tasks, w[1..][i], w[1..][i + 1])
        {
          assert Edge(tasks, w[i + 1], w[i + 2]);
        }
      }
      var rest := WalkGoesBack(tasks, order, w[1..], next);
      where := [at] + rest;
    }
  }

  lemma OrderedReachesNoCycle(tasks: seq<PlannedTask>, order: seq<nat>, p: nat)
    requires NeedsFirst(tasks, order) && p in order
    ensures !ReachesCycle(tasks, p)
  {
    if ReachesCycle(tasks, p) {
      var w :| Walk(tasks, w) && w[0] == p && Repeats(w);
      var at :| 0 <= at < |order| && order[at] == p;
      var where := WalkGoesBack(tasks, order, w, at);
    }
  }

  /** Among positions below `n`, more than `n` of them repeat one. */
  lemma {:induction false} Pigeonhole(w: seq<nat>, n: nat)
    requires |w| > n && forall i :: 0 <= i < |w| ==> w[i] < n
    ensures Repeats(w)
    decreases n
  {
    assert w[0] < n;
    if k :| 0 <= k < |w| && w[k] == n - 1 {
      if m :| 0 <= m < |w| && m != k && w[m] == n - 1 {
        assert w[if m < k then m else k] == w[if m < k then k else m];
      } else {
        var rest := w[..k] + w[k + 1..];
        Pigeonhole(rest, n - 1);
        var i, j :| 0 <= i < j < |rest| && rest[i] == rest[j];
        var i', j' := if i < k then i else i + 1, if j < k then j else j + 1;
        assert w[i'] == w[j'];
      }
    } else {
      Pigeonhole(w, n - 1);
    }
  }

  ghost predicate NeedsInside(tasks: seq<PlannedTask>, within: set<nat>, p: nat) {
    exists b: nat :: b in within && Edge(tasks, p, b)
  }

  /** Every task of `stuck` needs a task of `stuck`. */
  ghost predicate Stuck(tasks: seq<PlannedTask>, stuck: set<nat>) {
    forall p: nat :: p in stuck ==> p < |tasks| && NeedsInside(tasks, stuck, p)
  }

  /** Walks inside a stuck set have any length. */
  lemma {:induction false} WalkInside(tasks: seq<PlannedTask>, stuck: set<nat>, p: nat, length: nat)
      returns (w: seq<nat>)
    requires Stuck(tasks, stuck)
    requires p in stuck && length >= 1
    ensures Walk(tasks, w) && |w| == length && w[0] == p
    decreases length
  {
    hide Edge;
    if length == 1 {
      w := [p];
    } else {
      assert NeedsInside(tasks, stuck, p);
      var b: nat :| b in stuck && Edge(tasks, p, b);
      var rest := WalkInside(tasks, stuck, b, length - 1);
      w := [p] + rest;
      forall i | 0 <= i < |w| - 1
        ensures Edge(tasks, w[i], w[i + 1])
      {
        if i > 0 {
          assert Edge(tasks, rest[i - 1], rest[i]);
        }
      }
    }
  }

  lemma StuckReachesCycle(tasks: seq<PlannedTask>, stuck: set<nat>, p: nat)
    requires Stuck(tasks, stuck)
    requires p in stuck
    ensures ReachesCycle(tasks, p)
  {
    var w := WalkInside(tasks, stuck, p, |tasks| + 1);
    Pigeonhole(w, |tasks|);
  }

  // ---- Kahn's algorithm -----------------------------------------------------------------------------------------

  /** How many of `needs` are not done. */
  function Outside(needs: seq<TaskKey>, done: set<TaskKey>): nat {
    if needs == [] then 0 else (if needs[0] in done then 0 else 1) + Outside(needs[1..], done)
  }

  lemma {:induction false} OutsideIsZero(needs: seq<TaskKey>, done: set<TaskKey>)
    ensures Outside(needs, done) == 0 <==> forall k :: k in needs ==> k in done
    ensures done == {} ==> Outside(needs, done) == |needs|
  {
    if needs != [] {
      OutsideIsZero(needs[1..], done);
      assert forall k :: k in needs <==> k == needs[0] || k in needs[1..];
    }
  }

  /** One more key done: one need less for those who need it, since they name it once. */
  lemma {:induction false} OutsideShrinks(needs: seq<TaskKey>, done: set<TaskKey>, key: TaskKey)
    requires Distinct(needs) && key !in done
    ensures Outside(needs, done + {key}) == Outside(needs, done) - if key in needs then 1 else 0
  {
    if needs != [] {
      OutsideShrinks(needs[1..], done, key);
      assert key in needs <==> needs[0] == key || key in needs[1..];
      assert needs[0] == key ==> key !in needs[1..];
    }
  }

  function Arranged(tasks: seq<PlannedTask>, order: seq<nat>): (ordered: seq<PlannedTask>)
    requires forall i :: 0 <= i < |order| ==> order[i] < |tasks|
    ensures |ordered| == |order| && forall i :: 0 <= i < |order| ==> ordered[i] == tasks[order[i]]
  {
    seq(|order|, i requires 0 <= i < |order| => tasks[order[i]])
  }

  /** `done` holds the keys of the tasks taken. */
  ghost predicate KeysTaken(tasks: seq<PlannedTask>, order: seq<nat>, done: set<TaskKey>) {
    forall p: nat :: p < |tasks| ==> (tasks[p].key in done <==> p in order)
  }

  /** A task is ready exactly when all its needs are among the keys taken. */
  lemma ReadyIffDone(tasks: seq<PlannedTask>, order: seq<nat>, done: set<TaskKey>, p: nat)
    requires Resolved(tasks) && KeysTaken(tasks, order, done) && p < |tasks|
    ensures Ready(tasks, order, p) <==> Outside(tasks[p].needs, done) == 0
    ensures Outside(tasks[p].needs, done) != 0 ==> exists b: nat :: b !in order && Edge(tasks, p, b)
  {
    OutsideIsZero(tasks[p].needs, done);
    forall k | k in tasks[p].needs
      ensures exists b: nat :: Edge(tasks, p, b) && tasks[b].key == k && (b in order <==> k in done)
    {
      assert HasKey(tasks, k);
      var b: nat :| b < |tasks| && tasks[b].key == k;
      assert Edge(tasks, p, b);
    }
  }

  /** The first pending task whose count is zero, or the number of pending tasks. */
  method FirstReady(pending: seq<PlannedTask>, indegree: map<TaskKey, nat>) returns (pos: nat)
    requires forall t :: t in pending ==> t.key in indegree
    ensures pos <= |pending|
    ensures forall k :: 0 <= k < pos ==> indegree[pending[k].key] != 0
    ensures pos < |pending| ==> indegree[pending[pos].key] == 0
  {
    pos := 0;
    while pos < |pending| && indegree[pending[pos].key] != 0
      invariant pos <= |pending|
      invariant forall k :: 0 <= k < pos ==> indegree[pending[k].key] != 0
    {
      pos := pos + 1;
    }
  }

  /** `key` is done: one less for every pending task that needs it. */
  method Decrement(pending: seq<PlannedTask>, key: TaskKey, indegree: map<TaskKey, nat>)
      returns (left: map<TaskKey, nat>)
    requires DistinctKeys(pending) && forall t :: t in pending ==> t.key in indegree
    ensures left.Keys == indegree.Keys
    ensures forall t :: t in pending ==>
              left[t.key] == if key in t.needs && indegree[t.key] > 0 then indegree[t.key] - 1 else indegree[t.key]
  {
    left := indegree;
    for i := 0 to |pending|
      invariant left.Keys == indegree.Keys
      invariant forall k :: 0 <= k < i ==>
                  left[pending[k].key]
                  == if key in pending[k].needs && indegree[pending[k].key] > 0 then indegree[pending[k].key] - 1
                     else indegree[pending[k].key]
      invariant forall k :: i <= k < |pending| ==> left[pending[k].key] == indegree[pending[k].key]
    {
      if key in pending[i].needs && left[pending[i].key] > 0 {
        left := left[pending[i].key := left[pending[i].key] - 1];
      }
    }
  }

  /** Pending tasks, in input order, are those not taken yet, each with the number of its open needs. */
  ghost predicate PendingInv(tasks: seq<PlannedTask>, order: seq<nat>, done: set<TaskKey>,
                             pending: seq<PlannedTask>, at: seq<nat>, indegree: map<TaskKey, nat>) {
    && |at| == |pending|
    && (forall i :: 0 <= i < |at| ==>
          && at[i] < |tasks| && pending[i] == tasks[at[i]]
          && pending[i].key in indegree && indegree[pending[i].key] == Outside(pending[i].needs, done))
    && LeftOver(tasks, order, at) && KeysTaken(tasks, order, done)
  }

  /** `at` lists, in ascending order, the positions not in `order`. */
  ghost predicate LeftOver(tasks: seq<PlannedTask>, order: seq<nat>, at: seq<nat>) {
    && (forall i, j :: 0 <= i < j < |at| ==> at[i] < at[j])
    && forall p: nat :: p < |tasks| ==> (p in at <==> p !in order)
  }

  lemma LeftOverAfter(tasks: seq<PlannedTask>, order: seq<nat>, at: seq<nat>, pos: nat)
    requires LeftOver(tasks, order, at) && pos < |at|
    ensures LeftOver(tasks, order + [at[pos]], at[..pos] + at[pos + 1..])
  {
    var rest := at[..pos] + at[pos + 1..];
    forall p: nat | p < |tasks|
      ensures p in rest <==> p !in order + [at[pos]]
    {
      if i :| 0 <= i < |at| && at[i] == p && i != pos {
        assert rest[if i < pos then i else i - 1] == p;
      }
      if i :| 0 <= i < |rest| && rest[i] == p {
        assert at[if i < pos then i else i + 1] == p;
      }
    }
  }

  /** The greedy choice: the first ready pending task extends a greedy order. */
  lemma TakeFirstReady(tasks: seq<PlannedTask>, order: seq<nat>, done: set<TaskKey>,
                       pending: seq<PlannedTask>, at: seq<nat>, indegree: map<TaskKey, nat>, pos: nat)
    requires Resolved(tasks) && PendingInv(tasks, order, done, pending, at, indegree)
    requires NeedsFirst(tasks, order) && Greedy(tasks, order)
    requires pos < |pending| && indegree[pending[pos].key] == 0
    requires forall k :: 0 <= k < pos ==> indegree[pending[k].key] != 0
    ensures NeedsFirst(tasks, order + [at[pos]]) && Greedy(tasks, order + [at[pos]])
  {
    var p, next := at[pos], order + [at[pos]];
    ReadyIffDone(tasks, order, done, p);
    assert p in at;
    forall i, b: nat | 0 <= i < |next| && Edge(tasks, next[i], b)
      ensures b in next[..i]
    {
      assert next[..i] == order[..i];
      if i == |order| { assert order[..i] == order; }
    }
    forall k, q: nat | 0 <= k < |next| && q < next[k] && q !in next[..k]
      ensures !Ready(tasks, next[..k], q)
    {
      assert next[..k] == order[..k];
      if k == |order| {
        assert order[..k] == order;
        assert q in at;
        var i :| 0 <= i < |at| && at[i] == q;
        ReadyIffDone(tasks, order, done, q);
      }
    }
  }

  lemma PendingIsNotDone(tasks: seq<PlannedTask>, order: seq<nat>, done: set<TaskKey>, pending: seq<PlannedTask>,
                         at: seq<nat>,
                         indegree: map<TaskKey, nat>, pos: nat)
    requires PendingInv(tasks, order, done, pending, at, indegree) && pos < |pending|
    ensures pending[pos].key !in done
  {
    assert at[pos] in at;
  }

  /** The bookkeeping after taking the task at `pos`. */
  lemma PendingAfter(tasks: seq<PlannedTask>, order: seq<nat>, done: set<TaskKey>, pending: seq<PlannedTask>,
                     at: seq<nat>,
                     indegree: map<TaskKey, nat>, pos: nat, left: map<TaskKey, nat>)
    requires Resolved(tasks) && PendingInv(tasks, order, done, pending, at, indegree) && pos < |pending|
    requires var rest := pending[..pos] + pending[pos + 1..];
             var key := pending[pos].key;
             forall t :: t in rest ==>
               && t.key in left && t.key in indegree
               && left[t.key] == if key in t.needs && indegree[t.key] > 0 then indegree[t.key] - 1 else indegree[t.key]
    ensures PendingInv(tasks, order + [at[pos]], done + {pending[pos].key},
                       pending[..pos] + pending[pos + 1..], at[..pos] + at[pos + 1..], left)
  {
    hide Outside, HasKey, LeftOver;
    var rest, key, rests := pending[..pos] + pending[pos + 1..], pending[pos].key, at[..pos] + at[pos + 1..];
    LeftOverAfter(tasks, order, at, pos);
    PendingIsNotDone(tasks, order, done, pending, at, indegree, pos);
    forall i | 0 <= i < |rests|
      ensures rests[i] < |tasks| && rest[i] == tasks[rests[i]]
      ensures rest[i].key in left && left[rest[i].key] == Outside(rest[i].needs, done + {key})
    {
      var k := if i < pos then i else i + 1;
      assert rests[i] == at[k] && rest[i] == pending[k] && rest[i] in rest;
      assert Distinct(tasks[at[k]].needs);
      OutsideShrinks(rest[i].needs, done, key);
    }
  }

  /** With nothing ready, the pending tasks are exactly those that depend on a cycle. */
  lemma NothingReady(tasks: seq<PlannedTask>, order: seq<nat>, done: set<TaskKey>, pending: seq<PlannedTask>,
                     at: seq<nat>,
                     indegree: map<TaskKey, nat>)
    requires Resolved(tasks) && PendingInv(tasks, order, done, pending, at, indegree) && NeedsFirst(tasks, order)
    requires pending != [] && forall k :: 0 <= k < |pending| ==> indegree[pending[k].key] != 0
    ensures ReachesCycle(tasks, at[0]) && forall q: nat :: q < at[0] ==> !ReachesCycle(tasks, q)
  {
    hide Outside, ReachesCycle, HasKey, Edge;
    var stuck := set p | p in at;
    forall p: nat | p in stuck
      ensures NeedsInside(tasks, stuck, p)
    {
      var i :| 0 <= i < |at| && at[i] == p;
      ReadyIffDone(tasks, order, done, p);
      var b: nat :| b !in order && Edge(tasks, p, b);
      assert b < |tasks| by { EdgeInside(tasks, p, b); }
      assert b in stuck;
    }
    StuckReachesCycle(tasks, stuck, at[0]);
    forall q: nat | q < at[0]
      ensures !ReachesCycle(tasks, q)
    {
      assert q !in at;
      OrderedReachesNoCycle(tasks, order, q);
    }
  }

  lemma EdgeInside(tasks: seq<PlannedTask>, a: nat, b: nat)
    requires Edge(tasks, a, b)
    ensures a < |tasks| && b < |tasks|
  {
  }

  lemma NothingTaken(tasks: seq<PlannedTask>, at: seq<nat>, indegree: map<TaskKey, nat>)
    requires |at| == |tasks| && forall i :: 0 <= i < |at| ==> at[i] == i
    requires forall k :: 0 <= k < |tasks| ==> tasks[k].key in indegree && indegree[tasks[k].key] == |tasks[k].needs|
    ensures PendingInv(tasks, [], {}, tasks, at, indegree) && NeedsFirst(tasks, []) && Greedy(tasks, [])
  {
    forall i | 0 <= i < |tasks|
      ensures indegree[tasks[i].key] == Outside(tasks[i].needs, {})
    {
      OutsideIsZero(tasks[i].needs, {});
    }
    forall p: nat | p < |tasks|
      ensures p in at
    {
      assert at[p] == p;
    }
  }

  lemma PendingFacts(tasks: seq<PlannedTask>, order: seq<nat>, done: set<TaskKey>, pending: seq<PlannedTask>,
                     at: seq<nat>,
                     indegree: map<TaskKey, nat>)
    requires Resolved(tasks) && PendingInv(tasks, order, done, pending, at, indegree)
    ensures |at| == |pending| && forall i :: 0 <= i < |at| ==> at[i] < |tasks| && pending[i] == tasks[at[i]]
    ensures forall t :: t in pending ==> t.key in indegree
    ensures DistinctKeys(pending)
    ensures forall pos :: 0 <= pos < |pending| ==> DistinctKeys(pending[..pos] + pending[pos + 1..])
  {
  }

  /** With nothing pending, the order is complete. */
  lemma AllTaken(tasks: seq<PlannedTask>, order: seq<nat>, done: set<TaskKey>, indegree: map<TaskKey, nat>)
    requires PendingInv(tasks, order, done, [], [], indegree) && NeedsFirst(tasks, order) && Greedy(tasks, order)
    ensures IsTopological(tasks, order) && !Cyclic(tasks)
    ensures forall i :: 0 <= i < |order| ==> order[i] < |tasks|
    ensures forall other :: IsTopological(tasks, other) ==> LexLeq(order, other)
  {
    CyclicMeansSomeTaskReachesIt(tasks);
    forall p: nat | p < |tasks|
      ensures p in order && !ReachesCycle(tasks, p)
    {
      assert p !in [];
      OrderedReachesNoCycle(tasks, order, p);
    }
    forall other | IsTopological(tasks, other)
      ensures LexLeq(order, other)
    {
      GreedyIsLeast(tasks, order, other);
    }
  }

  /** Orders the tasks, or names a task that cannot be ordered. The order is the lexicographically least
      topological one by input position; the task named is the first, in input order, that depends on a
      cycle. */
  method TopoSort(tasks: seq<PlannedTask>) returns (result: Result<seq<PlannedTask>, PlanError>, ghost order: seq<nat>)
    requires Resolved(tasks)
    ensures result.Ok? <==> !Cyclic(tasks)
    ensures result.Ok? ==>
              && IsTopological(tasks, order) && result.value == Arranged(tasks, order)
              && forall other :: IsTopological(tasks, other) ==> LexLeq(order, other)
    ensures result.Err? ==>
              exists p: nat :: p < |tasks| && result == Err(Cycle(tasks[p].key)) && ReachesCycle(tasks, p)
                && forall q: nat :: q < p ==> !ReachesCycle(tasks, q)
  {
    hide Cyclic, ReachesCycle, Outside, LexLeq, Ready, Edge, NeedsFirst, Greedy, IsTopological, PendingInv;
    var indegree: map<TaskKey, nat> := map[];
    for i := 0 to |tasks|
      invariant forall k :: 0 <= k < i ==> tasks[k].key in indegree && indegree[tasks[k].key] == |tasks[k].needs|
    {
      indegree := indegree[tasks[i].key := |tasks[i].needs|];
    }
    hide Resolved, DistinctKeys;
    var pending, ordered := tasks, [];
    ghost var at: seq<nat> := seq(|tasks|, i => i);
    ghost var done: set<TaskKey> := {};
    order := [];
    NothingTaken(tasks, at, indegree);
    while pending != []
      invariant PendingInv(tasks, order, done, pending, at, indegree)
      invariant NeedsFirst(tasks, order) && Greedy(tasks, order)
      invariant forall i :: 0 <= i < |order| ==> order[i] < |tasks|
      invariant ordered == Arranged(tasks, order)
      decreases |pending|
    {
      PendingFacts(tasks, order, done, pending, at, indegree);
      var pos := FirstReady(pending, indegree);
      if pos == |pending| {
        NothingReady(tasks, order, done, pending, at, indegree);
        CyclicMeansSomeTaskReachesIt(tasks);
        return Err(Cycle(pending[0].key)), order;
      }
      TakeFirstReady(tasks, order, done, pending, at, indegree, pos);
      var taken := pending[pos];
      var rest := pending[..pos] + pending[pos + 1..];
      var left := Decrement(rest, taken.key, indegree);
      PendingAfter(tasks, order, done, pending, at, indegree, pos, left);
      ghost var longer := order + [at[pos]];
      assert Arranged(tasks, longer) == ordered + [taken];
      pending, indegree, ordered := rest, left, ordered + [taken];
      at, order, done := at[..pos] + at[pos + 1..], longer, done + {taken.key};
    }
    PendingFacts(tasks, order, done, pending, at, indegree);
    assert at == [];
    AllTaken(tasks, order, done, indegree);
    return Ok(ordered), order;
  }

  /** The task named by a cycle error need not lie on a cycle: here the first task needs a task of one. */
  lemma NamedTaskMayOnlyDependOnACycle(tasks: seq<PlannedTask>)
    requires |tasks| == 3 && tasks[0].key == "a" && tasks[1].key == "b" && tasks[2].key == "c"
    requires tasks[0].needs == ["b"] && tasks[1].needs == ["c"] && tasks[2].needs == ["b"]
    ensures Resolved(tasks) && ReachesCycle(tasks, 0) && forall w :: IsCycle(tasks, w) ==> 0 !in w
  {
    assert HasKey(tasks, "b") && HasKey(tasks, "c") by {
      assert tasks[1].key == "b" && tasks[2].key == "c";
    }
    var walk: seq<nat> := [0, 1, 2, 1];
    assert Walk(tasks, walk) && walk[1] == walk[3] && walk[0] == 0;
    forall w, i | IsCycle(tasks, w) && 0 <= i < |w|
      ensures w[i] != 0
    {
      if i > 0 {
        assert Edge(tasks, w[i - 1], w[i]);
      } else {
        assert Edge(tasks, w[|w| - 2], w[|w| - 1]);
      }
    }
  }
}
