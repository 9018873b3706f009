// The longest chain of landed session time along `needs`, computed with a memo and a depth guard.
module CriticalPath {
  import opened Ledger
  import opened Metrics
  import opened Sequences

  type Tasks = map<string, TaskMetrics>

  // ---- chains -------------------------------------------------------------------------------------------------------

  /** A chain starts at some task; each next one is needed by the one before. */
  ghost predicate Chain(byId: Tasks, c: seq<string>) {
    && c != []
    && (forall i :: 0 <= i < |c| ==> c[i] in byId)
    && forall i, j :: 0 <= i < |c| - 1 && j == i + 1 ==> c[j] in byId[c[i]].needs
  }

  /** Nothing known is needed by the last task of the chain. */
  ghost predicate Complete(byId: Tasks, c: seq<string>) {
    Chain(byId, c) && forall n :: n in byId[c[|c| - 1]].needs ==> n !in byId
  }

  function Weight(byId: Tasks, c: seq<string>): Secs
    requires forall i :: 0 <= i < |c| ==> c[i] in byId
  {
    if c == [] then 0 else Own(byId[c[0]]) + Weight(byId, c[1..])
  }

  /** No chain from `t` has more than `n` tasks. */
  ghost predicate Within(byId: Tasks, t: string, n: nat) {
    forall c :: Chain(byId, c) && c[0] == t ==> |c| <= n
  }

  ghost predicate HasChain(byId: Tasks, t: string, v: Secs) {
    exists c :: Chain(byId, c) && c[0] == t && Weight(byId, c) == v
  }

  /** `v` is the largest weight of a complete chain from `t`. */
  ghost predicate IsLongest(byId: Tasks, t: string, v: Secs) {
    && (exists c :: Complete(byId, c) && c[0] == t && Weight(byId, c) == v)
    && forall c :: Complete(byId, c) && c[0] == t ==> Weight(byId, c) <= v
  }

  lemma ChainTail(byId: Tasks, c: seq<string>)
    requires Chain(byId, c) && |c| > 1
    ensures Chain(byId, c[1..]) && c[1] in byId[c[0]].needs && c[1] in byId
    ensures Complete(byId, c) <==> Complete(byId, c[1..])
  {
    assert c[1..][|c| - 2] == c[|c| - 1];
  }

  lemma ChainCons(byId: Tasks, t: string, c: seq<string>)
    requires Chain(byId, c) && t in byId && c[0] in byId[t].needs
    ensures Chain(byId, [t] + c) && Weight(byId, [t] + c) == Own(byId[t]) + Weight(byId, c)
    ensures Complete(byId, [t] + c) <==> Complete(byId, c)
  {
    var d := [t] + c;
    assert d[1..] == c && d[|d| - 1] == c[|c| - 1];
    forall i | 0 <= i < |d| - 1
      ensures d[i + 1] in byId[d[i]].needs
    {
      if i > 0 { assert c[i] in byId[c[i - 1]].needs; }
    }
  }

  lemma ChainOne(byId: Tasks, t: string)
    requires t in byId
    ensures Chain(byId, [t]) && Weight(byId, [t]) == Own(byId[t])
    ensures Complete(byId, [t]) <==> forall n :: n in byId[t].needs ==> n !in byId
  {
    assert [t][1..] == [];
  }

  // ---- the best of what a task needs -------------------------------------------------------------------------------

  /** The first `n` needs of `t` looked at: `best` is a chain from one of them and, if `exact`, no complete
      chain from any of them weighs more. */
  ghost predicate BestOf(byId: Tasks, t: string, n: nat, best: Option<Secs>, exact: bool)
    requires t in byId && n <= |byId[t].needs|
  {
    var seen := byId[t].needs[..n];
    && (best.None? ==> forall d :: d in seen ==> d !in byId)
    && (best.Some? ==> exists d :: d in seen && d in byId && HasChain(byId, d, best.value))
    && (best.Some? && exact ==> exists d :: d in seen && d in byId && IsLongest(byId, d, best.value))
    && (best.Some? && exact ==>
          forall c :: Complete(byId, c) && c[0] in seen ==> Weight(byId, c) <= best.value)
  }

  lemma BestNext(byId: Tasks, t: string, n: nat, best: Option<Secs>, exact: bool, v: Secs)
    requires t in byId && n < |byId[t].needs| && BestOf(byId, t, n, best, exact)
    requires var d := byId[t].needs[n];
             d in byId ==> HasChain(byId, d, v) && (exact ==> IsLongest(byId, d, v))
    ensures var d := byId[t].needs[n];
            BestOf(byId, t, n + 1,
                   if d !in byId then best else if best.None? || v >= best.value then Some(v) else best, exact)
  {
    hide Weight;
    var d := byId[t].needs[n];
    var seen, more := byId[t].needs[..n], byId[t].needs[..n + 1];
    assert more == seen + [d];
    forall c | Complete(byId, c) && c[0] in more
      ensures c[0] in seen || c[0] == d
    {
    }
  }

  /** From the best of all needs to the task itself. */
  lemma BestOfAll(byId: Tasks, t: string, best: Option<Secs>, exact: bool)
    requires t in byId && BestOf(byId, t, |byId[t].needs|, best, exact)
    ensures var v := Own(byId[t]) + if best.Some? then best.value else 0;
            HasChain(byId, t, v) && (exact ==> IsLongest(byId, t, v))
  {
    hide Weight, Own;
    var needs := byId[t].needs;
    var v := Own(byId[t]) + if best.Some? then best.value else 0;
    assert needs[..|needs|] == needs;
    ChainOne(byId, t);
    if best.Some? {
      var d :| d in needs && d in byId && HasChain(byId, d, best.value);
      var c :| Chain(byId, c) && c[0] == d && Weight(byId, c) == best.value;
      ChainCons(byId, t, c);
      assert ([t] + c)[0] == t;
      if exact {
        var d' :| d' in needs && d' in byId && IsLongest(byId, d', best.value);
        var c' :| Complete(byId, c') && c'[0] == d' && Weight(byId, c') == best.value;
        ChainCons(byId, t, c');
        assert ([t] + c')[0] == t;
      }
    } else {
      assert Complete(byId, [t]) && [t][0] == t;
    }
    if exact {
      ChainsFromNeeds(byId, t, best, v);
    }
  }

  /** A chain from `t` is `t` alone or `t` and a chain from something it needs. */
  lemma ChainsFromNeeds(byId: Tasks, t: string, best: Option<Secs>, v: Secs)
    requires t in byId && BestOf(byId, t, |byId[t].needs|, best, true)
    requires v == Own(byId[t]) + if best.Some? then best.value else 0
    ensures forall c :: Complete(byId, c) && c[0] == t ==> Weight(byId, c) <= v
  {
    hide Weight, Own, HasChain, IsLongest;
    var needs := byId[t].needs;
    assert needs[..|needs|] == needs;
    ChainOne(byId, t);
    forall c | Complete(byId, c) && c[0] == t
      ensures Weight(byId, c) <= v
    {
      if |c| > 1 {
        ChainTail(byId, c);
        assert c == [t] + c[1..];
        ChainCons(byId, t, c[1..]);
      } else {
        assert c == [t];
      }
    }
  }

  // ---- the memoized search ------------------------------------------------------------------------------------------

  const DEPTH_LIMIT := 64

  /** No chain has more tasks than the depth guard lets the search follow. */
  ghost predicate Short(byId: Tasks) {
    forall c :: Chain(byId, c) ==> |c| <= DEPTH_LIMIT + 2
  }

  /** What is remembered about a task is right at whatever depth it was found. */
  ghost predicate MemoOk(byId: Tasks, memo: map<string, Secs>) {
    forall t :: t in memo ==> t in byId && HasChain(byId, t, memo[t]) && (Short(byId) ==> IsLongest(byId, t, memo[t]))
  }

  lemma NeedIsShorter(byId: Tasks, t: string, d: string, n: nat)
    requires t in byId && d in byId && d in byId[t].needs && Within(byId, t, n)
    ensures n >= 2 && Within(byId, d, n - 1)
  {
    hide Weight;
    ChainOne(byId, d);
    ChainCons(byId, t, [d]);
    assert ([t] + [d])[0] == t;
    forall c | Chain(byId, c) && c[0] == d
      ensures |c| <= n - 1
    {
      ChainCons(byId, t, c);
      assert ([t] + c)[0] == t;
    }
  }

  /** What the search returns and remembers, with the needs taken in order and the guard cutting below depth 64. */
  function Search(byId: Tasks, t: string, memo: map<string, Secs>, depth: nat): (Secs, map<string, Secs>)
    requires t in byId && depth <= DEPTH_LIMIT + 1
    decreases DEPTH_LIMIT + 2 - depth, 0
  {
    if t in memo then (memo[t], memo)
    else
      var (best, filled) :=
        if depth > DEPTH_LIMIT then (None, memo) else SearchNeeds(byId, byId[t].needs, memo, depth + 1, None);
      var v := Own(byId[t]) + if best.Some? then best.value else 0;
      (v, filled[t := v])
  }

  function SearchNeeds(byId: Tasks, needs: seq<string>, memo: map<string, Secs>, depth: nat, best: Option<Secs>)
      : (Option<Secs>, map<string, Secs>)
    requires depth <= DEPTH_LIMIT + 1
    decreases DEPTH_LIMIT + 2 - depth, |needs| + 1
  {
    if needs == [] then (best, memo)
    else if needs[0] !in byId then SearchNeeds(byId, needs[1..], memo, depth, best)
    else
      var (u, filled) := Search(byId, needs[0], memo, depth);
      SearchNeeds(byId, needs[1..], filled, depth, Some(if best.None? || u >= best.value then u else best.value))
  }

  /** The weight of the longest chain from `t`, as far as the depth guard allows. The guard makes the search
      end on any graph, cyclic ones included. */
  method Longest(byId: Tasks, t: string, memo: map<string, Secs>, depth: nat)
      returns (v: Secs, filled: map<string, Secs>)
    requires t in byId && depth <= DEPTH_LIMIT + 1 && MemoOk(byId, memo)
    requires Short(byId) ==> Within(byId, t, DEPTH_LIMIT + 2 - depth)
    ensures MemoOk(byId, filled)
    ensures HasChain(byId, t, v) && (Short(byId) ==> IsLongest(byId, t, v))
    ensures (v, filled) == Search(byId, t, memo, depth)
    decreases DEPTH_LIMIT + 2 - depth
  {
    hide HasChain, IsLongest, Within, BestOf, Short, Own;
    if t in memo {
      return memo[t], memo;
    }
    filled := memo;
    var needs := byId[t].needs;
    var best: Option<Secs> := None;
    if depth > DEPTH_LIMIT {
      GuardCutsNothing(byId, t);
    } else {
      NoneYet(byId, t, Short(byId));
      for k := 0 to |needs|
        invariant MemoOk(byId, filled) && BestOf(byId, t, k, best, Short(byId))
        invariant SearchNeeds(byId, needs[k..], filled, depth + 1, best)
               == SearchNeeds(byId, needs, memo, depth + 1, None)
      {
        assert needs[k..][0] == needs[k] && needs[k..][1..] == needs[k + 1..];
        var u := 0;
        if needs[k] in byId {
          if Short(byId) {
            NeedIsShorter(byId, t, needs[k], DEPTH_LIMIT + 2 - depth);
          }
          u, filled := Longest(byId, needs[k], filled, depth + 1);
        }
        BestNext(byId, t, k, best, Short(byId), u);
        if needs[k] in byId && (best.None? || u >= best.value) {
          best := Some(u);
        }
      }
    }
    if depth <= DEPTH_LIMIT || Short(byId) {
      BestOfAll(byId, t, best, Short(byId));
    }
    v := Own(byId[t]) + if best.Some? then best.value else 0;
    filled := filled[t := v];
  }

  lemma NoneYet(byId: Tasks, t: string, exact: bool)
    requires t in byId
    ensures BestOf(byId, t, 0, None, exact)
  {
  }

  /** Where the guard cuts, there is a chain of one, and nothing is cut if all chains are short. */
  lemma GuardCutsNothing(byId: Tasks, t: string)
    requires t in byId
    ensures HasChain(byId, t, Own(byId[t]))
    ensures Within(byId, t, 1) ==> BestOf(byId, t, |byId[t].needs|, None, true)
  {
    hide Weight;
    ChainOne(byId, t);
    assert [t][0] == t;
    if Within(byId, t, 1) {
      forall d | d in byId[t].needs
        ensures d !in byId
      {
        if d in byId {
          NeedIsShorter(byId, t, d, 1);
        }
      }
    }
  }

  predicate DistinctNames(tasks: seq<TaskMetrics>) {
    forall i, j :: 0 <= i < j < |tasks| ==> tasks[i].task != tasks[j].task
  }

  function ById(tasks: seq<TaskMetrics>): (byId: Tasks)
    ensures forall k :: k in byId ==> exists i :: 0 <= i < |tasks| && tasks[i].task == k && byId[k] == tasks[i]
    ensures forall i :: 0 <= i < |tasks| ==> tasks[i].task in byId
  {
    if tasks == [] then map[]
    else
      var n := |tasks| - 1;
      ById(tasks[..n])[tasks[n].task := tasks[n]]
  }

  ghost predicate WeighsSomeChain(byId: Tasks, v: Secs) {
    exists c :: Chain(byId, c) && Weight(byId, c) == v
  }

  /** No complete chain weighs more than `v`. */
  ghost predicate NoneLonger(byId: Tasks, v: Secs) {
    forall c :: Complete(byId, c) ==> Weight(byId, c) <= v
  }

  /** The largest weight of a complete chain. */
  ghost predicate WeighsLongest(byId: Tasks, v: Secs) {
    (exists c :: Complete(byId, c) && Weight(byId, c) == v) && NoneLonger(byId, v)
  }

  /** What the search promises: the weight of some chain; the largest weight of a complete chain when the
      depth guard cuts nothing. */
  ghost predicate IsCriticalPath(tasks: seq<TaskMetrics>, v: Secs) {
    var byId := ById(tasks);
    if tasks == [] then v == 0 else WeighsSomeChain(byId, v) && (Short(byId) ==> WeighsLongest(byId, v))
  }

  method Index(tasks: seq<TaskMetrics>) returns (byId: Tasks)
    ensures byId == ById(tasks)
  {
    byId := map[];
    for i := 0 to |tasks|
      invariant byId == ById(tasks[..i])
    {
      assert tasks[..i + 1][..i] == tasks[..i];
      byId := byId[tasks[i].task := tasks[i]];
    }
    assert tasks[..|tasks|] == tasks;
  }

  /** The search from every task in turn, with one memo. */
  function PathFrom(byId: Tasks, tasks: seq<TaskMetrics>, memo: map<string, Secs>, best: Option<Secs>): Secs
    requires forall i :: 0 <= i < |tasks| ==> tasks[i].task in byId
    decreases |tasks|
  {
    if tasks == [] then if best.Some? then best.value else 0
    else
      var (u, filled) := Search(byId, tasks[0].task, memo, 0);
      PathFrom(byId, tasks[1..], filled, Some(if best.None? || u >= best.value then u else best.value))
  }

  function PathOf(tasks: seq<TaskMetrics>): Secs {
    PathFrom(ById(tasks), tasks, map[], None)
  }

  method CriticalPath(tasks: seq<TaskMetrics>) returns (v: Secs)
    ensures IsCriticalPath(tasks, v)
    ensures v == PathOf(tasks)
  {
    hide Search, HasChain, IsLongest, Short, MemoOk, BestSoFar, IsCriticalPath, Chain, Within, ById;
    var byId := Index(tasks);
    var memo: map<string, Secs> := map[];
    NoMemo(byId);
    var best: Option<Secs> := None;
    NothingSoFar(tasks, byId);
    for i := 0 to |tasks|
      invariant MemoOk(byId, memo) && BestSoFar(tasks, byId, i, best)
      invariant PathFrom(byId, tasks[i..], memo, best) == PathOf(tasks)
    {
      assert tasks[i..][0] == tasks[i] && tasks[i..][1..] == tasks[i + 1..];
      if Short(byId) {
        ShortIsWithin(byId, tasks[i].task);
      }
      var u;
      u, memo := Longest(byId, tasks[i].task, memo, 0);
      SoFarNext(tasks, byId, i, best, u);
      best := Some(if best.None? || u >= best.value then u else best.value);
    }
    v := if best.Some? then best.value else 0;
    MostOfAll(tasks, best);
  }

  /** The best of the first `n` tasks. */
  ghost predicate BestSoFar(tasks: seq<TaskMetrics>, byId: Tasks, n: nat, best: Option<Secs>)
    requires n <= |tasks|
  {
    && (best.None? <==> n == 0)
    && (best.Some? ==> exists t :: t in byId && HasChain(byId, t, best.value))
    && (best.Some? && Short(byId) ==> exists t :: t in byId && IsLongest(byId, t, best.value))
    && (best.Some? && Short(byId) ==> forall k :: 0 <= k < n ==> NoLonger(byId, tasks[k].task, best.value))
  }

  lemma NoMemo(byId: Tasks)
    ensures MemoOk(byId, map[])
  {
  }

  lemma NothingSoFar(tasks: seq<TaskMetrics>, byId: Tasks)
    ensures BestSoFar(tasks, byId, 0, None)
  {
  }

  lemma SoFarNext(tasks: seq<TaskMetrics>, byId: Tasks, n: nat, best: Option<Secs>, u: Secs)
    requires n < |tasks| && tasks[n].task in byId && BestSoFar(tasks, byId, n, best)
    requires HasChain(byId, tasks[n].task, u) && (Short(byId) ==> IsLongest(byId, tasks[n].task, u))
    ensures BestSoFar(tasks, byId, n + 1, Some(if best.None? || u >= best.value then u else best.value))
  {
    hide HasChain, IsLongest, Short, NoLonger;
    if Short(byId) {
      LongestIsMost(byId, tasks[n].task, u);
      var most := if best.None? || u >= best.value then u else best.value;
      forall k | 0 <= k < n + 1
        ensures NoLonger(byId, tasks[k].task, most)
      {
        NoLongerThanMore(byId, tasks[k].task, if k == n then u else best.value, most);
      }
    }
  }

  lemma NoLongerThanMore(byId: Tasks, t: string, v: Secs, more: Secs)
    requires NoLonger(byId, t, v) && v <= more
    ensures NoLonger(byId, t, more)
  {
    hide Weight;
  }

  /** No complete chain from `t` weighs more than `v`. */
  ghost predicate NoLonger(byId: Tasks, t: string, v: Secs) {
    forall c :: Complete(byId, c) && c[0] == t ==> Weight(byId, c) <= v
  }

  lemma LongestIsMost(byId: Tasks, t: string, u: Secs)
    requires IsLongest(byId, t, u)
    ensures NoLonger(byId, t, u)
  {
  }

  lemma ShortIsWithin(byId: Tasks, t: string)
    requires Short(byId)
    ensures Within(byId, t, DEPTH_LIMIT + 2)
  {
  }

  lemma SomeChain(byId: Tasks, t: string, v: Secs)
    requires HasChain(byId, t, v)
    ensures WeighsSomeChain(byId, v)
  {
    hide Weight;
  }

  lemma CompleteIsNoLonger(tasks: seq<TaskMetrics>, v: Secs, c: seq<string>)
    requires forall k :: 0 <= k < |tasks| ==> NoLonger(ById(tasks), tasks[k].task, v)
    requires Complete(ById(tasks), c)
    ensures Weight(ById(tasks), c) <= v
  {
    hide Weight, ById, Own;
    var name := c[0];
    assert name in ById(tasks);
    var i := PositionOf(tasks, name);
    assert NoLonger(ById(tasks), tasks[i].task, v);
  }

  lemma PositionOf(tasks: seq<TaskMetrics>, name: string) returns (i: nat)
    requires name in ById(tasks)
    ensures i < |tasks| && tasks[i].task == name
  {
    i :| i < |tasks| && tasks[i].task == name;
  }

  lemma AllNoLonger(tasks: seq<TaskMetrics>, v: Secs)
    requires forall k :: 0 <= k < |tasks| ==> NoLonger(ById(tasks), tasks[k].task, v)
    ensures NoneLonger(ById(tasks), v)
  {
    hide Weight, ById, NoLonger, Own;
    forall c | Complete(ById(tasks), c)
      ensures Weight(ById(tasks), c) <= v
    {
      CompleteIsNoLonger(tasks, v, c);
    }
  }

  lemma LongestWeighs(byId: Tasks, t: string, v: Secs)
    requires IsLongest(byId, t, v) && NoneLonger(byId, v)
    ensures WeighsLongest(byId, v)
  {
    hide Weight, Own, NoneLonger;
    var longest :| Complete(byId, longest) && longest[0] == t && Weight(byId, longest) == v;
  }

  lemma MostOfAll(tasks: seq<TaskMetrics>, best: Option<Secs>)
    requires BestSoFar(tasks, ById(tasks), |tasks|, best)
    ensures IsCriticalPath(tasks, if best.Some? then best.value else 0)
  {
    hide Short, ById, HasChain, IsLongest, NoLonger, NoneLonger, WeighsSomeChain, WeighsLongest;
    var byId := ById(tasks);
    if best.Some? {
      var t :| t in byId && HasChain(byId, t, best.value);
      SomeChain(byId, t, best.value);
      if Short(byId) {
        var t' :| t' in byId && IsLongest(byId, t', best.value);
        AllNoLonger(tasks, best.value);
        LongestWeighs(byId, t', best.value);
      }
    }
  }

  // ---- what follows -------------------------------------------------------------------------------------------------

  ghost predicate NonNegative(byId: Tasks) {
    forall t :: t in byId ==> Own(byId[t]) >= 0
  }

  lemma {:induction false} WeightAppend(byId: Tasks, a: seq<string>, b: seq<string>)
    requires forall i :: 0 <= i < |a| ==> a[i] in byId
    requires forall i :: 0 <= i < |b| ==> b[i] in byId
    ensures Weight(byId, a + b) == Weight(byId, a) + Weight(byId, b)
  {
    if a == [] {
      assert a + b == b;
    } else {
      assert (a + b)[1..] == a[1..] + b;
      WeightAppend(byId, a[1..], b);
    }
  }

  /** Every chain goes on to a complete one that weighs no less. */
  lemma {:induction false} ChainCompletes(byId: Tasks, c: seq<string>) returns (longer: seq<string>)
    requires Short(byId) && NonNegative(byId) && Chain(byId, c)
    ensures Complete(byId, longer) && Weight(byId, longer) >= Weight(byId, c)
    decreases DEPTH_LIMIT + 2 - |c|
  {
    if Complete(byId, c) {
      longer := c;
    } else {
      var n :| n in byId[c[|c| - 1]].needs && n in byId;
      var next := c + [n];
      assert Chain(byId, next) by {
        forall i | 0 <= i < |next| - 1
          ensures next[i + 1] in byId[next[i]].needs
        {
        }
      }
      WeightAppend(byId, c, [n]);
      ChainOne(byId, n);
      longer := ChainCompletes(byId, next);
    }
  }

  /** With non-negative sessions and no chain beyond the guard, no chain at all weighs more. */
  lemma NoChainWeighsMore(tasks: seq<TaskMetrics>, v: Secs, c: seq<string>)
    requires IsCriticalPath(tasks, v) && Short(ById(tasks)) && NonNegative(ById(tasks)) && Chain(ById(tasks), c)
    ensures Weight(ById(tasks), c) <= v
  {
    assert c[0] in ById(tasks);
    var longer := ChainCompletes(ById(tasks), c);
  }

  ghost predicate Acyclic(byId: Tasks) {
    forall c :: Chain(byId, c) ==> forall i, j :: 0 <= i < j < |c| ==> c[i] != c[j]
  }

  ghost predicate Named(tasks: seq<TaskMetrics>, name: string) {
    exists k :: 0 <= k < |tasks| && tasks[k].task == name
  }

  lemma NamedInRest(tasks: seq<TaskMetrics>, name: string)
    requires tasks != [] && Named(tasks, name) && name != tasks[0].task
    ensures Named(tasks[1..], name)
  {
    var k :| 0 <= k < |tasks| && tasks[k].task == name;
    assert tasks[1..][k - 1].task == name;
  }

  lemma WeightWithout(byId: Tasks, c: seq<string>, at: nat)
    requires at < |c| && forall i :: 0 <= i < |c| ==> c[i] in byId
    ensures forall k :: k in c[..at] + c[at + 1..] ==> k in byId
    ensures Weight(byId, c) == Own(byId[c[at]]) + Weight(byId, c[..at] + c[at + 1..])
  {
    assert c == c[..at] + ([c[at]] + c[at + 1..]);
    WeightAppend(byId, c[..at], [c[at]] + c[at + 1..]);
    WeightAppend(byId, [c[at]], c[at + 1..]);
    WeightAppend(byId, c[..at], c[at + 1..]);
    ChainOne(byId, c[at]);
  }

  /** Distinct tasks together weigh no more than all tasks. */
  lemma {:induction false} DistinctTasksFit(tasks: seq<TaskMetrics>, byId: Tasks, c: seq<string>)
    requires Distinct(c)
    requires forall i :: 0 <= i < |tasks| ==>
               tasks[i].task in byId && byId[tasks[i].task] == tasks[i] && Own(tasks[i]) >= 0
    requires forall i :: 0 <= i < |c| ==> c[i] in byId && Named(tasks, c[i])
    ensures Weight(byId, c) <= LandedWork(tasks)
    decreases |tasks|
  {
    hide Own, Named;
    if tasks == [] {
      NothingNamed(c);
    } else if at :| 0 <= at < |c| && c[at] == tasks[0].task {
      var rest := c[..at] + c[at + 1..];
      WeightWithout(byId, c, at);
      forall i | 0 <= i < |rest|
        ensures rest[i] in byId && Named(tasks[1..], rest[i])
      {
        NamedInRest(tasks, rest[i]);
      }
      DistinctTasksFit(tasks[1..], byId, rest);
    } else {
      forall i | 0 <= i < |c|
        ensures Named(tasks[1..], c[i])
      {
        NamedInRest(tasks, c[i]);
      }
      DistinctTasksFit(tasks[1..], byId, c);
    }
  }

  lemma NothingNamed(c: seq<string>)
    requires forall i :: 0 <= i < |c| ==> Named([], c[i])
    ensures c == []
  {
    assert |c| > 0 ==> Named([], c[0]);
  }

  lemma ByIdIsExact(tasks: seq<TaskMetrics>)
    requires DistinctNames(tasks)
    ensures forall i :: 0 <= i < |tasks| ==> ById(tasks)[tasks[i].task] == tasks[i]
  {
    hide ById;
    forall i | 0 <= i < |tasks|
      ensures ById(tasks)[tasks[i].task] == tasks[i]
    {
      var j :| 0 <= j < |tasks| && tasks[j].task == tasks[i].task && ById(tasks)[tasks[i].task] == tasks[j];
    }
  }

  lemma ChainIsNamed(tasks: seq<TaskMetrics>, c: seq<string>)
    requires Chain(ById(tasks), c)
    ensures forall i :: 0 <= i < |c| ==> c[i] in ById(tasks) && Named(tasks, c[i])
  {
    hide ById;
  }

  /** On an acyclic graph with non-negative sessions the critical path and the retry tax fit in the work
      done, whatever the depth guard cuts. */
  lemma CriticalPathAndTaxFitInWork(tasks: seq<TaskMetrics>, v: Secs)
    requires DistinctNames(tasks) && IsCriticalPath(tasks, v)
    requires Acyclic(ById(tasks)) && forall i :: 0 <= i < |tasks| ==> Own(tasks[i]) >= 0
    ensures v + RetryTax(tasks) <= Work(tasks)
  {
    hide Own, ById, Weight;
    WorkSplits(tasks);
    if tasks != [] {
      var byId := ById(tasks);
      var c :| Chain(byId, c) && Weight(byId, c) == v;
      ByIdIsExact(tasks);
      assert forall i, j :: 0 <= i < j < |c| ==> c[i] != c[j];
      ChainIsNamed(tasks, c);
      DistinctTasksFit(tasks, byId, c);
    }
  }

  // ---- where the guard cuts -----------------------------------------------------------------------------------------

  const REACH := DEPTH_LIMIT + 2

  function Name(k: nat): string {
    seq(k, _ => 't')
  }

  /** The `k`-th task of a line: one session of a second, and a need for the next. */
  function LineTask(k: nat): TaskMetrics {
    TaskMetrics(Name(k), None, [Name(k + 1)], [Attempt(0, Some(1), None, None, None, None, None, true, None, 0)])
  }

  /** `n` tasks in a line, each needing the next, the one that needs all others listed first. */
  function Line(n: nat): seq<TaskMetrics> {
    seq(n, k requires 0 <= k < n => LineTask(k))
  }

  function LineChain(k: nat, n: nat): seq<string>
    requires k <= n
  {
    seq(n - k, i requires 0 <= i < n - k => Name(k + i))
  }

  lemma LineAt(n: nat, k: nat)
    ensures Name(k) in ById(Line(n)) <==> k < n
    ensures k < n ==>
              ById(Line(n))[Name(k)] == LineTask(k) && LineTask(k).needs == [Name(k + 1)] && Own(LineTask(k)) == 1
  {
    hide ById;
    var tasks := Line(n);
    assert |Name(k)| == k;
    if k < n {
      assert tasks[k].task in ById(tasks);
      OwnOfLine(k);
    }
    if Name(k) in ById(tasks) {
      var i :| 0 <= i < |tasks| && tasks[i].task == Name(k) && ById(tasks)[Name(k)] == tasks[i];
      assert |Name(i)| == i;
    }
  }

  function Least(a: nat, b: nat): nat {
    if a <= b then a else b
  }

  lemma OwnOfLine(k: nat)
    ensures Own(LineTask(k)) == 1
  {
    var attempts := LineTask(k).attempts;
    assert attempts[1..] == [];
    assert SecondsIn(attempts[1..], true) == 0;
  }

  /** The search of a task with the one need `d`. */
  lemma SearchOfOne(byId: Tasks, t: string, d: string, memo: map<string, Secs>, depth: nat)
    requires t in byId && depth <= DEPTH_LIMIT + 1 && t !in memo && byId[t].needs == [d]
    ensures d !in byId || depth > DEPTH_LIMIT ==>
              Search(byId, t, memo, depth) == (Own(byId[t]), memo[t := Own(byId[t])])
    ensures d in byId && depth <= DEPTH_LIMIT ==>
              var (u, filled) := Search(byId, d, memo, depth + 1);
              Search(byId, t, memo, depth) == (Own(byId[t]) + u, filled[t := Own(byId[t]) + u])
  {
    hide Own;
    var needs := byId[t].needs;
    assert needs[0] == d && needs[1..] == [];
    if depth <= DEPTH_LIMIT && d in byId {
      var (u, filled) := Search(byId, d, memo, depth + 1);
      assert SearchNeeds(byId, [], filled, depth + 1, Some(u)) == (Some(u), filled);
      assert SearchNeeds(byId, needs, memo, depth + 1, None) == (Some(u), filled);
    } else {
      assert SearchNeeds(byId, [], memo, Least(depth + 1, DEPTH_LIMIT + 1), None) == (None, memo);
    }
  }

  /** `filled` is `memo` with the tasks of the line from `k` up to `m` added, none of them beyond `bound`. */
  ghost predicate Adds(memo: map<string, Secs>, filled: map<string, Secs>, k: nat, m: nat, bound: Secs) {
    && (forall j: nat :: Name(j) in filled <==> Name(j) in memo || k <= j < m)
    && (forall j: nat :: Name(j) in memo ==> filled[Name(j)] == memo[Name(j)])
    && forall j: nat :: k <= j < m ==> Name(j) in filled && filled[Name(j)] <= bound
  }

  lemma NamesDiffer()
    ensures forall j: nat, k: nat :: Name(j) == Name(k) ==> j == k
  {
    forall j: nat, k: nat | Name(j) == Name(k)
      ensures j == k
    {
      assert |Name(j)| == j && |Name(k)| == k;
    }
  }

  /** A search down a line of which nothing is remembered from `k` on sees as many tasks as the guard lets it. */
  lemma {:induction false} SearchOfLine(n: nat, k: nat, memo: map<string, Secs>, depth: nat)
    requires k < n && depth < REACH && forall j: nat :: j >= k ==> Name(j) !in memo
    ensures Name(k) in ById(Line(n))
    ensures var (v, filled) := Search(ById(Line(n)), Name(k), memo, depth);
            v == Least(n - k, REACH - depth) && Adds(memo, filled, k, k + v, v)
    decreases REACH - depth
  {
    hide ById, Search, Own, Name, LineTask;
    var byId := ById(Line(n));
    LineAt(n, k);
    LineAt(n, k + 1);
    NamesDiffer();
    SearchOfOne(byId, Name(k), Name(k + 1), memo, depth);
    if k + 1 < n && depth <= DEPTH_LIMIT {
      SearchOfLine(n, k + 1, memo, depth + 1);
    }
  }

  /** What a line yields once its head was searched: nothing that follows is more. */
  lemma {:induction false} RestOfLine(n: nat, i: nat, m: nat, memo: map<string, Secs>)
    requires i <= m <= n && n > 0 && Adds(map[], memo, 0, m, Least(n, REACH))
    ensures forall j :: 0 <= j < |Line(n)[i..]| ==> Line(n)[i..][j].task in ById(Line(n))
    ensures PathFrom(ById(Line(n)), Line(n)[i..], memo, Some(Least(n, REACH))) == Least(n, REACH)
    decreases n - i
  {
    hide ById, Search, Name, LineTask, Adds;
    var byId, rest := ById(Line(n)), Line(n)[i..];
    RestIsIndexed(n, i);
    if i < n {
      var (u, filled) := Search(byId, Name(i), memo, 0);
      assert rest[0].task == Name(i) && rest[1..] == Line(n)[i + 1..];
      var next := NextOfLine(n, i, m, memo);
      RestOfLine(n, i + 1, next, filled);
    }
  }

  lemma RestIsIndexed(n: nat, i: nat)
    requires i <= n
    ensures forall j :: 0 <= j < |Line(n)[i..]| ==> Line(n)[i..][j].task in ById(Line(n))
    ensures i < n ==> Line(n)[i..][0].task == Name(i)
  {
    hide ById, Name, Own;
    forall j | 0 <= j < n - i
      ensures Line(n)[i..][j].task in ById(Line(n))
    {
      LineAt(n, i + j);
    }
  }

  /** The next task of the line is remembered, or searched with nothing remembered from it on. */
  lemma NextOfLine(n: nat, i: nat, m: nat, memo: map<string, Secs>) returns (next: nat)
    requires i <= m <= n && i < n && Adds(map[], memo, 0, m, Least(n, REACH))
    ensures Name(i) in ById(Line(n))
    ensures var (u, filled) := Search(ById(Line(n)), Name(i), memo, 0);
            && i + 1 <= next <= n && u <= Least(n, REACH) && Adds(map[], filled, 0, next, Least(n, REACH))
  {
    hide ById, Search, Name, LineTask, Own;
    LineAt(n, i);
    NamesDiffer();
    next := m;
    if i < m {
      RememberedIsFound(ById(Line(n)), Name(i), memo);
    } else {
      SearchOfLine(n, i, memo, 0);
      next := i + Search(ById(Line(n)), Name(i), memo, 0).0;
    }
  }

  lemma RememberedIsFound(byId: Tasks, t: string, memo: map<string, Secs>)
    requires t in byId && t in memo
    ensures Search(byId, t, memo, 0) == (memo[t], memo)
  {
  }

  lemma {:induction false} WeightOfLine(n: nat, k: nat)
    requires k <= n
    ensures forall i :: 0 <= i < |LineChain(k, n)| ==> LineChain(k, n)[i] in ById(Line(n))
    ensures Weight(ById(Line(n)), LineChain(k, n)) == n - k
    decreases n - k
  {
    hide ById, Own, Name, LineTask;
    if k < n {
      LineAt(n, k);
      WeightOfLine(n, k + 1);
      assert LineChain(k, n)[1..] == LineChain(k + 1, n);
    }
  }

  lemma LineIsAChain(n: nat)
    requires n > 0
    ensures Complete(ById(Line(n)), LineChain(0, n))
  {
    hide ById, Name, Own, LineTask;
    var byId, c := ById(Line(n)), LineChain(0, n);
    forall i | 0 <= i < |c|
      ensures c[i] in byId && byId[c[i]].needs == [Name(i + 1)]
    {
      LineAt(n, i);
    }
    LineAt(n, n);
  }

  /** On a line of `n` sessions of a second each, listed from the one that needs all others, the result is the
      weight of the whole line exactly when the line has at most 66 tasks: beyond that it stays at 66. */
  lemma GuardIsSharp(n: nat)
    requires n > 0
    ensures var byId := ById(Line(n));
            && Complete(byId, LineChain(0, n)) && Weight(byId, LineChain(0, n)) == n
            && PathOf(Line(n)) == Least(n, REACH)
            && (PathOf(Line(n)) == n <==> n <= 66)
  {
    hide ById, Search, Weight, Name, Own;
    var byId, c := ById(Line(n)), LineChain(0, n);
    WeightOfLine(n, 0);
    LineIsAChain(n);
    LineAt(n, 0);
    SearchOfLine(n, 0, map[], 0);
    var (v, filled) := Search(byId, Name(0), map[], 0);
    RestOfLine(n, 1, v, filled);
    assert Line(n)[0].task == Name(0);
  }
}
