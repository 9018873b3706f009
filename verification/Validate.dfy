// Turning the model's raw plan into a plan: every check in order, then the topological order.
module Validate {
  import opened Text
  import opened Ledger
  import opened Plan
  import opened Sequences
  import opened Toposort

  // ---- what a well-formed raw plan is -----------------------------------------------------------------------

  predicate TextOk(s: string, limit: nat, forbidden: char) {
    Trim(s) != "" && |Trim(s)| <= limit && forbidden !in Trim(s)
  }

  predicate CommandOk(s: string) {
    TextOk(s, 4000, '\0')
  }

  predicate NeedsKey(raw: RawTask, key: string) {
    exists n :: n in raw.needs && Trim(n) == key
  }

  /** One task on its own: a key, a title, at least one verify command, needs that are keys, not its own. */
  predicate TaskOk(raw: RawTask) {
    && IsKey(Trim(raw.key)) && TextOk(raw.title, 200, '\n')
    && (forall c :: c in raw.verify && !Blank(c) ==> CommandOk(c))
    && (exists c :: c in raw.verify && !Blank(c))
    && (forall n :: n in raw.needs ==> IsKey(Trim(n)))
    && !NeedsKey(raw, Trim(raw.key))
  }

  predicate RawEdge(raw: seq<RawTask>, a: nat, b: nat) {
    a < |raw| && b < |raw| && NeedsKey(raw[a], Trim(raw[b].key))
  }

  ghost predicate RawCycle(raw: seq<RawTask>, w: seq<nat>) {
    && |w| >= 2 && w[0] == w[|w| - 1]
    && forall i :: 0 <= i < |w| - 1 ==> RawEdge(raw, w[i], w[i + 1])
  }

  predicate IsBlocked(raw: RawPlan) {
    raw.blocked.Some? && !Blank(raw.blocked.value)
  }

  predicate NeedKnown(raw: seq<RawTask>, n: string) {
    exists j :: 0 <= j < |raw| && Trim(raw[j].key) == Trim(n)
  }

  /** Not blocked, some tasks, each fine on its own, unique keys, every need resolved, acyclic, and a
      summary that is a title. */
  ghost predicate WellFormed(raw: RawPlan) {
    && !IsBlocked(raw) && raw.tasks != []
    && (forall i :: 0 <= i < |raw.tasks| ==> TaskOk(raw.tasks[i]))
    && (forall i, j :: 0 <= i < j < |raw.tasks| ==> Trim(raw.tasks[i].key) != Trim(raw.tasks[j].key))
    && (forall i, n :: 0 <= i < |raw.tasks| && n in raw.tasks[i].needs ==> NeedKnown(raw.tasks, n))
    && !(exists w :: RawCycle(raw.tasks, w))
    && TextOk(raw.summary, 200, '\n')
  }

  // ---- each parser does what it says ----------------------------------------------------------------------------

  /** `kept` are the strings at the positions `at` of `raw`, trimmed, in the order of `raw`. */
  predicate InOrder(raw: seq<string>, kept: seq<string>, at: seq<nat>) {
    && |at| == |kept|
    && (forall i, j :: 0 <= i < j < |at| ==> at[i] < at[j])
    && forall i :: 0 <= i < |at| ==> at[i] < |raw| && kept[i] == Trim(raw[at[i]])
  }

  /** The commands are the non-blank ones, each trimmed, in order. */
  ghost predicate AreCommands(raw: seq<string>, commands: seq<string>) {
    exists at :: InOrder(raw, commands, at) && forall p: nat :: p < |raw| ==> (p in at <==> !Blank(raw[p]))
  }

  /** No earlier string is the same key. */
  predicate IsFirstOf(raw: seq<string>, p: nat)
    requires p < |raw|
  {
    forall q :: 0 <= q < p ==> Trim(raw[q]) != Trim(raw[p])
  }

  /** The needs are the keys named, in the order in which each is named first. */
  ghost predicate AreNeeds(raw: seq<string>, needs: seq<TaskKey>) {
    exists at :: InOrder(raw, needs, at) && forall p: nat :: p < |raw| ==> (p in at <==> IsFirstOf(raw, p))
  }

  /** Why a text is refused: blank, too long, or with a character it may not contain, in this order. */
  predicate IsTextError(s: string, limit: nat, forbidden: char, e: TextError) {
    match e
    case EmptyText => Trim(s) == ""
    case TooLong => Trim(s) != "" && |Trim(s)| > limit
    case BadCharacter => Trim(s) != "" && |Trim(s)| <= limit && forbidden in Trim(s)
  }

  lemma TextMeans(s: string, limit: nat, forbidden: char)
    ensures var r := ParseText(s, limit, forbidden);
            && (r.Ok? <==> TextOk(s, limit, forbidden)) && (r.Ok? ==> r.value == Trim(s))
            && (r.Err? ==> IsTextError(s, limit, forbidden, r.error))
  {
  }

  /** `p` is the first command that is neither blank nor fine. */
  predicate IsFirstBad(raw: seq<string>, p: nat) {
    && p < |raw| && !Blank(raw[p]) && !CommandOk(raw[p])
    && forall q :: 0 <= q < p ==> Blank(raw[q]) || CommandOk(raw[q])
  }

  /** Parsing the commands keeps the non-blank ones, trimmed, in order, and fails on the first bad one. */
  lemma {:induction false} CommandsMean(raw: seq<string>)
    ensures var r := ParseCommands(raw);
            && (r.Ok? <==> forall c :: c in raw && !Blank(c) ==> CommandOk(c))
            && (r.Ok? ==> (r.value != [] <==> exists c :: c in raw && !Blank(c)))
            && (r.Ok? ==> AreCommands(raw, r.value))
            && (r.Err? ==> exists p: nat :: IsFirstBad(raw, p) && IsTextError(raw[p], 4000, '\0', r.error))
  {
    hide Blank, CommandOk, IsTextError, AreCommands;
    var r := ParseCommands(raw);
    if raw == [] {
      NoCommands();
    } else {
      CommandsMean(raw[1..]);
      CommandOrBlank(raw[0]);
      assert forall c :: c in raw <==> c == raw[0] || c in raw[1..];
      var rest := ParseCommands(raw[1..]);
      if r.Ok? {
        CommandsOn(raw, rest.value);
        assert raw[0] in raw;
        assert !Blank(raw[0]) ==> r.value[0] == Trim(raw[0]);
      } else if Blank(raw[0]) || CommandOk(raw[0]) {
        var p: nat :| IsFirstBad(raw[1..], p) && IsTextError(raw[1..][p], 4000, '\0', r.error);
        assert forall q :: 1 <= q < |raw| ==> raw[q] == raw[1..][q - 1];
        assert IsFirstBad(raw, p + 1);
      } else {
        assert IsFirstBad(raw, 0);
      }
    }
  }

  lemma CommandOrBlank(s: string)
    ensures var r := ParseCommand(s);
            && (r.Ok? <==> CommandOk(s)) && (r.Ok? ==> r.value == Trim(s) && !Blank(s))
            && (r.Err? ==> IsTextError(s, 4000, '\0', r.error))
  {
  }

  lemma NoCommands()
    ensures AreCommands([], [])
  {
    var none: seq<nat> := [];
    assert InOrder([], [], none);
  }

  /** One more string in front. */
  lemma CommandsOn(raw: seq<string>, rest: seq<string>)
    requires raw != [] && AreCommands(raw[1..], rest)
    ensures AreCommands(raw, if Blank(raw[0]) then rest else [Trim(raw[0])] + rest)
  {
    hide Blank, Trim, Shifted;
    var at :| InOrder(raw[1..], rest, at) && forall p: nat :: p < |raw[1..]| ==> (p in at <==> !Blank(raw[1..][p]));
    var kept := if Blank(raw[0]) then rest else [Trim(raw[0])] + rest;
    var on := if Blank(raw[0]) then Shifted(at) else [0] + Shifted(at);
    ShiftedInOrder(raw, rest, at);
    forall p: nat | p < |raw|
      ensures p in on <==> !Blank(raw[p])
    {
      ShiftedHas(at, p);
      assert p > 0 ==> raw[p] == raw[1..][p - 1];
    }
  }

  lemma ShiftedInOrder(raw: seq<string>, rest: seq<string>, at: seq<nat>)
    requires raw != [] && InOrder(raw[1..], rest, at)
    ensures InOrder(raw, rest, Shifted(at)) && InOrder(raw, [Trim(raw[0])] + rest, [0] + Shifted(at))
  {
    hide Trim;
    forall i | 0 <= i < |at|
      ensures raw[1..][at[i]] == raw[Shifted(at)[i]]
    {
    }
  }

  function Shifted(at: seq<nat>): seq<nat> {
    seq(|at|, i requires 0 <= i < |at| => at[i] + 1)
  }

  lemma ShiftedHas(at: seq<nat>, p: nat)
    ensures p in Shifted(at) <==> p > 0 && p - 1 in at
  {
    if p in Shifted(at) {
      var i :| 0 <= i < |at| && Shifted(at)[i] == p;
    }
    if p > 0 && p - 1 in at {
      var i :| 0 <= i < |at| && at[i] == p - 1;
      assert Shifted(at)[i] == p;
    }
  }

  /** The needs read so far, and at which positions: where each key is named first. */
  predicate NeedsSoFar(raw: seq<string>, n: nat, needs: seq<TaskKey>, at: seq<nat>) {
    && n <= |raw| && InOrder(raw, needs, at) && (forall i :: 0 <= i < |at| ==> at[i] < n)
    && forall p: nat :: p < n ==> (p in at <==> IsFirstOf(raw, p))
  }

  /** After `n` strings have been read, parsing the rest ends with the keys in the order in which each is named
      first, or at the first that is no key. */
  lemma {:induction false} NeedsFrom(raw: seq<string>, n: nat, known: seq<TaskKey>, at: seq<nat>)
    requires NeedsSoFar(raw, n, known, at)
    ensures var r := ParseNeeds(raw[n..], known);
            && (r.Ok? <==> forall p :: n <= p < |raw| ==> IsKey(Trim(raw[p])))
            && (r.Ok? ==> AreNeeds(raw, r.value))
            && (r.Err? ==> exists p: nat :: n <= p < |raw| && IsFirstNonKey(raw, n, p) && r.error == BadKey(raw[p]))
    decreases |raw| - n
  {
    hide Trim, IsKey, IsFirstOf;
    if n == |raw| {
      assert raw[n..] == [];
    } else {
      assert raw[n..][0] == raw[n] && raw[n..][1..] == raw[n + 1..];
      var key := Trim(raw[n]);
      if IsKey(key) {
        KnownIff(raw, n, known, at);
        var longer := if key in known then at else at + [n];
        NeedsFrom(raw, n + 1, if key in known then known else known + [key], longer);
        var r := ParseNeeds(raw[n..], known);
        if r.Err? {
          var p: nat :| n + 1 <= p < |raw| && IsFirstNonKey(raw, n + 1, p) && r.error == BadKey(raw[p]);
          assert IsFirstNonKey(raw, n, p);
        }
      } else {
        assert IsFirstNonKey(raw, n, n);
      }
    }
  }

  /** `p` is the first string from `n` on that is no key. */
  predicate IsFirstNonKey(raw: seq<string>, n: nat, p: nat) {
    n <= p < |raw| && !IsKey(Trim(raw[p])) && forall q :: n <= q < p ==> IsKey(Trim(raw[q]))
  }

  /** A key is known exactly when it was named before. */
  lemma KnownIff(raw: seq<string>, n: nat, known: seq<TaskKey>, at: seq<nat>)
    requires NeedsSoFar(raw, n, known, at) && n < |raw|
    ensures Trim(raw[n]) in known <==> !IsFirstOf(raw, n)
    ensures Trim(raw[n]) in known ==> NeedsSoFar(raw, n + 1, known, at)
    ensures Trim(raw[n]) !in known ==> NeedsSoFar(raw, n + 1, known + [Trim(raw[n])], at + [n])
  {
    hide Trim;
    var key := Trim(raw[n]);
    if key in known {
      var i :| 0 <= i < |known| && known[i] == key;
      assert Trim(raw[at[i]]) == key;
    }
    if !IsFirstOf(raw, n) {
      var q := FirstNamed(raw, n);
      var i :| 0 <= i < |at| && at[i] == q;
      assert known[i] == key;
    }
  }

  /** Where a key that was named before was named first. */
  lemma FirstNamed(raw: seq<string>, n: nat) returns (q: nat)
    requires n < |raw| && !IsFirstOf(raw, n)
    ensures q < n && Trim(raw[q]) == Trim(raw[n]) && IsFirstOf(raw, q)
    decreases n
  {
    hide Trim;
    q :| q < n && Trim(raw[q]) == Trim(raw[n]);
    if !IsFirstOf(raw, q) {
      q := FirstNamed(raw, q);
    }
  }

  /** Parsing the needs keeps the keys in the order in which each is named first, and fails on the first that is
      no key. */
  lemma NeedsMean(raw: seq<string>)
    ensures var r := ParseNeeds(raw, []);
            && (r.Ok? <==> forall n :: n in raw ==> IsKey(Trim(n)))
            && (r.Ok? ==>
                  && AreNeeds(raw, r.value) && Distinct(r.value)
                  && forall k :: k in r.value <==> exists n :: n in raw && Trim(n) == k)
            && (r.Err? ==> exists p: nat :: IsFirstNonKey(raw, 0, p) && r.error == BadKey(raw[p]))
  {
    hide Trim, IsKey, ParseNeeds, AreNeeds;
    var none: seq<nat> := [];
    assert InOrder(raw, [], none) && raw[0..] == raw;
    NeedsFrom(raw, 0, [], none);
    var r := ParseNeeds(raw, []);
    if r.Ok? {
      NeedsAreDistinct(raw, r.value);
    }
  }

  lemma NeedsAreDistinct(raw: seq<string>, needs: seq<TaskKey>)
    requires AreNeeds(raw, needs)
    ensures Distinct(needs) && forall k :: k in needs <==> exists n :: n in raw && Trim(n) == k
  {
    hide Trim;
    var at :| InOrder(raw, needs, at) && forall p: nat :: p < |raw| ==> (p in at <==> IsFirstOf(raw, p));
    forall i, j | 0 <= i < j < |needs|
      ensures needs[i] != needs[j]
    {
      assert at[j] in at && IsFirstOf(raw, at[j]);
    }
    forall n | n in raw
      ensures Trim(n) in needs
    {
      var p :| 0 <= p < |raw| && raw[p] == n;
      var q := p;
      if !IsFirstOf(raw, p) {
        q := FirstNamed(raw, p);
      }
      var i :| 0 <= i < |at| && at[i] == q;
      assert needs[i] == Trim(n);
    }
    forall k | k in needs
      ensures exists n :: n in raw && Trim(n) == k
    {
      var i :| 0 <= i < |needs| && needs[i] == k;
      assert raw[at[i]] in raw;
    }
  }

  /** What a parsed task keeps of its raw form. */
  ghost predicate IsParsed(raw: RawTask, task: PlannedTask, defaults: PlanDefaults) {
    && task.key == Trim(raw.key) && task.title == Trim(raw.title)
    && task.description == raw.description && task.acceptance == raw.acceptance
    && AreCommands(raw.verify, task.verify) && task.verify != []
    && AreNeeds(raw.needs, task.needs)
    && Distinct(task.needs) && (forall k :: k in task.needs <==> NeedsKey(raw, k))
    && task.budget == defaults.budget && task.verifyTimeout == defaults.verifyTimeout
  }

  /** The first problem of a task, with the keys before it: its key, its title, its first bad command or the lack of
      any, its first need that is no key, a need of itself. */
  ghost predicate IsProblem(raw: RawTask, before: set<TaskKey>, e: PlanError) {
    if !IsKey(Trim(raw.key)) then e == BadKey(raw.key)
    else if Trim(raw.key) in before then e == DuplicateKey(raw.key)
    else if !TextOk(raw.title, 200, '\n') then
      e.EmptyTitle? && e.key == raw.key && IsTextError(raw.title, 200, '\n', e.title)
    else if exists c :: c in raw.verify && !Blank(c) && !CommandOk(c) then
      && e.BadVerify? && e.key == raw.key
      && exists p: nat :: IsFirstBad(raw.verify, p) && IsTextError(raw.verify[p], 4000, '\0', e.verify)
    else if forall c :: c in raw.verify ==> Blank(c) then e == NoVerify(raw.key)
    else if exists n :: n in raw.needs && !IsKey(Trim(n)) then
      exists p: nat :: IsFirstNonKey(raw.needs, 0, p) && e == BadKey(raw.needs[p])
    else NeedsKey(raw, Trim(raw.key)) && e == SelfNeed(raw.key)
  }

  lemma TaskMeans(raw: RawTask, seen: set<TaskKey>, defaults: PlanDefaults)
    ensures var r := ParseTask(raw, seen, defaults);
            && (r.Ok? <==> TaskOk(raw) && Trim(raw.key) !in seen)
            && (r.Ok? ==> IsParsed(raw, r.value, defaults))
            && (r.Err? ==> IsProblem(raw, seen, r.error))
  {
    hide Trim, ParseCommands, ParseNeeds, Blank, IsKey, CommandOk, ParseText, TextOk, IsTextError, AreCommands,
        AreNeeds;
    TextMeans(raw.title, 200, '\n');
    CommandsMean(raw.verify);
    NeedsMean(raw.needs);
    NeedsOfTask(raw);
  }

  lemma NeedsOfTask(raw: RawTask)
    ensures forall k :: NeedsKey(raw, k) <==> exists n :: n in raw.needs && Trim(n) == k
  {
  }

  lemma KeyOfParsed()
    ensures forall raw, task, defaults :: IsParsed(raw, task, defaults) ==> task.key == Trim(raw.key)
  {
  }

  /** The keys of the first `n` tasks. */
  function KeysBefore(raw: seq<RawTask>, n: nat): set<TaskKey>
    requires n <= |raw|
  {
    if n == 0 then {} else {Trim(raw[0].key)} + KeysBefore(raw[1..], n - 1)
  }

  /** The tasks parse exactly when each is fine on its own and no key occurs twice or was seen before. */
  lemma {:induction false} TasksMean(raw: seq<RawTask>, seen: set<TaskKey>, defaults: PlanDefaults)
    ensures var r := ParseTasks(raw, seen, defaults);
            && (r.Ok? <==>
                  && (forall i :: 0 <= i < |raw| ==> TaskOk(raw[i]) && Trim(raw[i].key) !in seen)
                  && forall i, j :: 0 <= i < j < |raw| ==> Trim(raw[i].key) != Trim(raw[j].key))
            && (r.Ok? ==> |r.value| == |raw| && forall i :: 0 <= i < |raw| ==> IsParsed(raw[i], r.value[i], defaults))
    decreases |raw|
  {
    hide TaskOk, ParseTask, IsParsed, Trim;
    if raw != [] {
      KeyOfParsed();
      TaskMeans(raw[0], seen, defaults);
      var first := ParseTask(raw[0], seen, defaults);
      if first.Ok? {
        TasksMean(raw[1..], seen + {first.value.key}, defaults);
        assert forall i :: 0 <= i < |raw| - 1 ==> raw[1..][i] == raw[i + 1];
        assert forall i :: 1 <= i < |raw| ==> raw[i] == raw[1..][i - 1];
      }
    }
  }

  /** A parse error is the problem of the first task that has one, given the keys before it. */
  lemma {:induction false} FirstProblem(raw: seq<RawTask>, seen: set<TaskKey>, defaults: PlanDefaults) returns (at: nat)
    requires ParseTasks(raw, seen, defaults).Err?
    ensures at < |raw|
    ensures ParseTasks(raw[..at], seen, defaults).Ok?
    ensures ParseTask(raw[at], seen + KeysBefore(raw, at), defaults) == Err(ParseTasks(raw, seen, defaults).error)
    ensures IsProblem(raw[at], seen + KeysBefore(raw, at), ParseTasks(raw, seen, defaults).error)
    decreases |raw|
  {
    hide ParseTask, IsProblem, IsParsed;
    KeyOfParsed();
    TaskMeans(raw[0], seen, defaults);
    var first := ParseTask(raw[0], seen, defaults);
    if first.Err? {
      at := 0;
      assert seen + KeysBefore(raw, 0) == seen;
    } else {
      var rest := FirstProblem(raw[1..], seen + {first.value.key}, defaults);
      at := rest + 1;
      assert raw[..at][1..] == raw[1..][..rest] && raw[..at][0] == raw[0];
      assert seen + KeysBefore(raw, at) == seen + {first.value.key} + KeysBefore(raw[1..], rest);
    }
  }

  // ---- needs that name no task --------------------------------------------------------------------------------

  function UnknownIn(needs: seq<TaskKey>, keys: set<TaskKey>): Option<TaskKey> {
    if needs == [] then None else if needs[0] !in keys then Some(needs[0]) else UnknownIn(needs[1..], keys)
  }

  /** The first need, task by task, that is no key of the plan. */
  function FirstUnknown(tasks: seq<PlannedTask>, keys: set<TaskKey>): Option<PlanError> {
    if tasks == [] then None
    else
      match UnknownIn(tasks[0].needs, keys)
      case Some(n) => Some(UnknownNeed(tasks[0].key, n))
      case None => FirstUnknown(tasks[1..], keys)
  }

  lemma {:induction false} UnknownInMeans(needs: seq<TaskKey>, keys: set<TaskKey>)
    ensures UnknownIn(needs, keys).None? <==> forall k :: k in needs ==> k in keys
  {
    if needs != [] {
      UnknownInMeans(needs[1..], keys);
      assert forall k :: k in needs <==> k == needs[0] || k in needs[1..];
    }
  }

  lemma {:induction false} FirstUnknownMeans(tasks: seq<PlannedTask>, keys: set<TaskKey>)
    ensures FirstUnknown(tasks, keys).None? <==> forall t, k :: t in tasks && k in t.needs ==> k in keys
  {
    if tasks != [] {
      FirstUnknownMeans(tasks[1..], keys);
      UnknownInMeans(tasks[0].needs, keys);
      assert forall t :: t in tasks <==> t == tasks[0] || t in tasks[1..];
    }
  }

  function KeySet(tasks: seq<PlannedTask>): set<TaskKey> {
    set t | t in tasks :: t.key
  }

  /** Parsed tasks carry the same needs graph as their raw form. */
  lemma ParsedGraph(raw: seq<RawTask>, tasks: seq<PlannedTask>, defaults: PlanDefaults)
    requires ParseTasks(raw, {}, defaults) == Ok(tasks)
    ensures |tasks| == |raw| && DistinctKeys(tasks) && forall i :: 0 <= i < |tasks| ==> Distinct(tasks[i].needs)
    ensures forall a: nat, b: nat :: Edge(tasks, a, b) <==> RawEdge(raw, a, b)
    ensures Cyclic(tasks) <==> exists w :: RawCycle(raw, w)
    ensures Resolved(tasks) <==> FirstUnknown(tasks, KeySet(tasks)).None?
    ensures FirstUnknown(tasks, KeySet(tasks)).None?
         <==> forall i, n :: 0 <= i < |raw| && n in raw[i].needs ==> NeedKnown(raw, n)
  {
    hide ParseTasks, FirstUnknown;
    TasksMean(raw, {}, defaults);
    SameEdges(raw, tasks, defaults);
    SameCycles(raw, tasks);
    FirstUnknownMeans(tasks, KeySet(tasks));
    SameUnknowns(raw, tasks, defaults);
  }

  lemma SameEdges(raw: seq<RawTask>, tasks: seq<PlannedTask>, defaults: PlanDefaults)
    requires |tasks| == |raw| && forall i :: 0 <= i < |raw| ==> IsParsed(raw[i], tasks[i], defaults)
    ensures forall a: nat, b: nat :: Edge(tasks, a, b) <==> RawEdge(raw, a, b)
  {
  }

  lemma SameCycles(raw: seq<RawTask>, tasks: seq<PlannedTask>)
    requires |tasks| == |raw| && forall a: nat, b: nat :: Edge(tasks, a, b) <==> RawEdge(raw, a, b)
    ensures Cyclic(tasks) <==> exists w :: RawCycle(raw, w)
  {
    if Cyclic(tasks) {
      var w :| IsCycle(tasks, w);
      assert RawCycle(raw, w);
    }
    if w :| RawCycle(raw, w) {
      forall i | 0 <= i < |w|
        ensures w[i] < |tasks|
      {
        if i < |w| - 1 { assert RawEdge(raw, w[i], w[i + 1]); } else { assert RawEdge(raw, w[0], w[1]); }
      }
      assert IsCycle(tasks, w);
    }
  }

  lemma KeyNames(raw: seq<RawTask>, tasks: seq<PlannedTask>, k: TaskKey)
    requires |tasks| == |raw| && forall i :: 0 <= i < |raw| ==> tasks[i].key == Trim(raw[i].key)
    ensures k in KeySet(tasks) <==> HasKey(tasks, k)
    ensures HasKey(tasks, k) <==> exists j :: 0 <= j < |raw| && Trim(raw[j].key) == k
  {
    if i :| 0 <= i < |tasks| && tasks[i].key == k {
      assert tasks[i] in tasks && Trim(raw[i].key) == k;
    }
    if j :| 0 <= j < |raw| && Trim(raw[j].key) == k {
      assert tasks[j].key == k;
    }
  }

  /** Every need of every task is one of `tasks`' keys. */
  ghost predicate AllKnown(tasks: seq<PlannedTask>) {
    forall i, k :: 0 <= i < |tasks| && k in tasks[i].needs ==> HasKey(tasks, k)
  }

  lemma SameUnknowns(raw: seq<RawTask>, tasks: seq<PlannedTask>, defaults: PlanDefaults)
    requires |tasks| == |raw| && forall i :: 0 <= i < |raw| ==> IsParsed(raw[i], tasks[i], defaults)
    ensures AllKnown(tasks) <==> forall i, n :: 0 <= i < |raw| && n in raw[i].needs ==> NeedKnown(raw, n)
    ensures AllKnown(tasks) <==> forall t, k :: t in tasks && k in t.needs ==> k in KeySet(tasks)
  {
    hide KeySet, HasKey, Trim;
    forall i, n | 0 <= i < |raw| && n in raw[i].needs
      ensures NeedsKey(raw[i], Trim(n)) && (NeedKnown(raw, n) <==> HasKey(tasks, Trim(n)))
    {
      assert IsParsed(raw[i], tasks[i], defaults);
      KeyNames(raw, tasks, Trim(n));
    }
    if forall i, n :: 0 <= i < |raw| && n in raw[i].needs ==> NeedKnown(raw, n) {
      forall i, k | 0 <= i < |tasks| && k in tasks[i].needs
        ensures HasKey(tasks, k)
      {
        assert NeedsKey(raw[i], k);
        var n :| n in raw[i].needs && Trim(n) == k;
        assert NeedKnown(raw, n);
      }
    }
    if AllKnown(tasks) {
      forall i, n | 0 <= i < |raw| && n in raw[i].needs
        ensures NeedKnown(raw, n)
      {
        assert NeedsKey(raw[i], Trim(n)) && Trim(n) in tasks[i].needs;
      }
    }
    forall k
      ensures k in KeySet(tasks) <==> HasKey(tasks, k)
    {
      KeyNames(raw, tasks, k);
    }
    forall i | 0 <= i < |tasks|
      ensures tasks[i] in tasks
    {
    }
  }

  // ---- validation -----------------------------------------------------------------------------------------------

  method DedupNeeds(raw: seq<string>) returns (r: Result<seq<TaskKey>, PlanError>)
    ensures r == ParseNeeds(raw, [])
  {
    var needs: seq<TaskKey> := [];
    for i := 0 to |raw|
      invariant ParseNeeds(raw, []) == ParseNeeds(raw[i..], needs)
    {
      assert raw[i..][1..] == raw[i + 1..];
      match ParseKey(raw[i])
      case Err(e) => return Err(e);
      case Ok(key) =>
        if key !in needs {
          needs := needs + [key];
        }
    }
    r := Ok(needs);
  }

  function Prepended(before: seq<PlannedTask>, r: Result<seq<PlannedTask>, PlanError>)
      : Result<seq<PlannedTask>, PlanError> {
    match r
    case Ok(rest) => Ok(before + rest)
    case Err(e) => Err(e)
  }

  /** One task: the first problem found ends it. */
  method ReadTask(raw: RawTask, seen: set<TaskKey>, defaults: PlanDefaults) returns (r: Result<PlannedTask, PlanError>)
    ensures r == ParseTask(raw, seen, defaults)
  {
    hide ParseCommands, ParseNeeds;
    var key := ParseKey(raw.key);
    if key.Err? { return Err(key.error); }
    if key.value in seen { return Err(DuplicateKey(raw.key)); }
    var title := ParseTitle(raw.title);
    if title.Err? { return Err(EmptyTitle(raw.key, title.error)); }
    var verify := ParseCommands(raw.verify);
    if verify.Err? { return Err(BadVerify(raw.key, verify.error)); }
    if verify.value == [] { return Err(NoVerify(raw.key)); }
    var needs := DedupNeeds(raw.needs);
    if needs.Err? { return Err(needs.error); }
    if key.value in needs.value { return Err(SelfNeed(raw.key)); }
    r := Ok(PlannedTask(key.value, title.value, raw.description, raw.acceptance, verify.value, needs.value,
                        defaults.budget, defaults.verifyTimeout));
  }

  /** The tasks one by one, remembering the keys seen. */
  method ReadTasks(raw: seq<RawTask>, defaults: PlanDefaults)
      returns (r: Result<seq<PlannedTask>, PlanError>, seen: set<TaskKey>)
    ensures r == ParseTasks(raw, {}, defaults)
    ensures r.Ok? ==> seen == KeySet(r.value)
  {
    hide ParseTask;
    seen := {};
    var tasks: seq<PlannedTask> := [];
    ghost var whole := ParseTasks(raw, {}, defaults);
    assert raw[0..] == raw && (whole.Ok? ==> tasks + whole.value == whole.value);
    for i := 0 to |raw|
      invariant ParseTasks(raw, {}, defaults) == Prepended(tasks, ParseTasks(raw[i..], seen, defaults))
      invariant seen == KeySet(tasks)
    {
      assert raw[i..][1..] == raw[i + 1..] && raw[i..][0] == raw[i];
      var read := ReadTask(raw[i], seen, defaults);
      if read.Err? {
        return Err(read.error), seen;
      }
      var task := read.value;
      ghost var rest := ParseTasks(raw[i + 1..], seen + {task.key}, defaults);
      assert rest.Ok? ==> tasks + ([task] + rest.value) == tasks + [task] + rest.value;
      assert KeySet(tasks + [task]) == seen + {task.key};
      seen, tasks := seen + {task.key}, tasks + [task];
    }
    r := Ok(tasks);
    assert tasks + [] == tasks;
  }

  method FindUnknown(tasks: seq<PlannedTask>, seen: set<TaskKey>) returns (unknown: Option<PlanError>)
    ensures unknown == FirstUnknown(tasks, seen)
  {
    for i := 0 to |tasks|
      invariant FirstUnknown(tasks, seen) == FirstUnknown(tasks[i..], seen)
    {
      assert tasks[i..][1..] == tasks[i + 1..];
      var n := UnknownIn(tasks[i].needs, seen);
      if n.Some? {
        return Some(UnknownNeed(tasks[i].key, n.value));
      }
    }
    unknown := None;
  }

  /** The task a cycle error names: the first, in input order, that depends on a cycle. */
  ghost predicate FirstOnCycle(tasks: seq<PlannedTask>, key: TaskKey) {
    exists p: nat :: p < |tasks| && key == tasks[p].key && ReachesCycle(tasks, p)
      && forall q: nat :: q < p ==> !ReachesCycle(tasks, q)
  }

  ghost predicate AllParsed(raw: seq<RawTask>, tasks: seq<PlannedTask>, defaults: PlanDefaults) {
    |tasks| == |raw| && forall i :: 0 <= i < |raw| ==> IsParsed(raw[i], tasks[i], defaults)
  }

  /** Task `at` is the first with a problem of its own or with a key that was there before. */
  ghost predicate IsFirstProblem(raw: seq<RawTask>, at: nat, e: PlanError) {
    && at < |raw| && IsProblem(raw[at], KeysBefore(raw, at), e)
    && (forall i :: 0 <= i < at ==> TaskOk(raw[i]))
    && forall i, j :: 0 <= i < j < at ==> Trim(raw[i].key) != Trim(raw[j].key)
  }

  /** Need `n` of task `i` is the first, task by task, that no task of the plan has for its key. */
  ghost predicate IsFirstUnknown(raw: seq<RawTask>, i: nat, n: nat) {
    && i < |raw| && n < |raw[i].needs| && !NeedKnown(raw, raw[i].needs[n])
    && (forall m :: 0 <= m < n ==> NeedKnown(raw, raw[i].needs[m]))
    && forall j, m :: 0 <= j < i && 0 <= m < |raw[j].needs| ==> NeedKnown(raw, raw[j].needs[m])
  }

  /** Which error a plan is rejected with: the checks come in this order. */
  ghost predicate RejectedWith(raw: RawPlan, defaults: PlanDefaults, error: PlanError) {
    if IsBlocked(raw) then error == BlockedBy(Trim(raw.blocked.value))
    else if raw.tasks == [] then error == Empty
    else if !TasksFine(raw.tasks) then exists at: nat :: IsFirstProblem(raw.tasks, at, error)
    else exists tasks :: AllParsed(raw.tasks, tasks, defaults) && LaterError(raw, tasks, error)
  }

  /** Every task is fine on its own and no key repeats. */
  ghost predicate TasksFine(raw: seq<RawTask>) {
    && (forall i :: 0 <= i < |raw| ==> TaskOk(raw[i]))
    && forall i, j :: 0 <= i < j < |raw| ==> Trim(raw[i].key) != Trim(raw[j].key)
  }

  /** The error of a plan whose tasks parse. */
  ghost predicate LaterError(raw: RawPlan, tasks: seq<PlannedTask>, error: PlanError)
    requires |tasks| == |raw.tasks|
  {
    if exists i: nat, n: nat :: IsFirstUnknown(raw.tasks, i, n)
    then
      exists i: nat, n: nat ::
        IsFirstUnknown(raw.tasks, i, n) && error == UnknownNeed(tasks[i].key, Trim(raw.tasks[i].needs[n]))
    else if Cyclic(tasks) then error.Cycle? && FirstOnCycle(tasks, error.key)
    else error.BadSummary? && IsTextError(raw.summary, 200, '\n', error.summary)
  }

  /** The plan made of the raw one: every task as parsed, in the least order that puts needs first. */
  ghost predicate PlanOf(raw: RawPlan, defaults: PlanDefaults, plan: Plan, order: seq<nat>) {
    && plan.summary == Trim(raw.summary)
    && plan.reference == (if raw.reference.Some? && !Blank(raw.reference.value) then raw.reference else None)
    && exists tasks ::
         && AllParsed(raw.tasks, tasks, defaults) && Resolved(tasks) && IsTopological(tasks, order)
         && plan.tasks == Arranged(tasks, order)
         && forall other :: IsTopological(tasks, other) ==> LexLeq(order, other)
  }

  /** The first need that is no key is the first that is unknown in the raw plan. */
  lemma UnknownIsFirst(raw: seq<RawTask>, tasks: seq<PlannedTask>, defaults: PlanDefaults)
    requires AllParsed(raw, tasks, defaults)
    ensures var u := FirstUnknown(tasks, KeySet(tasks));
            && (u.None? ==> forall i: nat, n: nat :: !IsFirstUnknown(raw, i, n))
            && (u.Some? ==> exists i: nat, n: nat ::
                              IsFirstUnknown(raw, i, n) && u == Some(UnknownNeed(tasks[i].key, Trim(raw[i].needs[n]))))
  {
    hide FirstUnknown, KeySet, IsParsed, Trim;
    KnownIsKey(raw, tasks, defaults);
    UnknownFrom(raw, tasks, defaults, 0);
    assert tasks[0..] == tasks;
  }

  lemma KnownIsKey(raw: seq<RawTask>, tasks: seq<PlannedTask>, defaults: PlanDefaults)
    requires AllParsed(raw, tasks, defaults)
    ensures forall n :: NeedKnown(raw, n) <==> Trim(n) in KeySet(tasks)
  {
    hide Trim;
    forall n
      ensures NeedKnown(raw, n) <==> Trim(n) in KeySet(tasks)
    {
      KeyNames(raw, tasks, Trim(n));
    }
  }

  lemma {:induction false} UnknownFrom(raw: seq<RawTask>, tasks: seq<PlannedTask>, defaults: PlanDefaults, k: nat)
    requires AllParsed(raw, tasks, defaults) && k <= |raw|
    requires forall n :: NeedKnown(raw, n) <==> Trim(n) in KeySet(tasks)
    requires forall j, m :: 0 <= j < k && 0 <= m < |raw[j].needs| ==> NeedKnown(raw, raw[j].needs[m])
    ensures var u := FirstUnknown(tasks[k..], KeySet(tasks));
            && (u.None? ==> forall i: nat, n: nat :: !IsFirstUnknown(raw, i, n))
            && (u.Some? ==> exists i: nat, n: nat ::
                              IsFirstUnknown(raw, i, n) && u == Some(UnknownNeed(tasks[i].key, Trim(raw[i].needs[n]))))
    decreases |raw| - k
  {
    hide KeySet, IsParsed, Trim, NeedKnown, UnknownIn;
    if k < |raw| {
      assert tasks[k..][0] == tasks[k] && tasks[k..][1..] == tasks[k + 1..];
      NeedsInTask(raw[k], tasks[k], defaults, KeySet(tasks));
      var u := UnknownIn(tasks[k].needs, KeySet(tasks));
      if u.Some? {
        var n: nat :| UnknownAt(raw[k].needs, n, KeySet(tasks)) && u.value == Trim(raw[k].needs[n]);
        assert IsFirstUnknown(raw, k, n);
      } else {
        UnknownFrom(raw, tasks, defaults, k + 1);
      }
    }
  }

  /** The first of the strings whose key is not among `keys`. */
  predicate UnknownAt(raw: seq<string>, n: nat, keys: set<TaskKey>) {
    n < |raw| && Trim(raw[n]) !in keys && forall m :: 0 <= m < n ==> Trim(raw[m]) in keys
  }

  lemma NeedsInTask(raw: RawTask, task: PlannedTask, defaults: PlanDefaults, keys: set<TaskKey>)
    requires IsParsed(raw, task, defaults)
    ensures var u := UnknownIn(task.needs, keys);
            && (u.None? ==> forall m :: 0 <= m < |raw.needs| ==> Trim(raw.needs[m]) in keys)
            && (u.Some? ==> exists n: nat :: UnknownAt(raw.needs, n, keys) && u.value == Trim(raw.needs[n]))
  {
    hide Trim, AreCommands;
    UnknownInMeans(task.needs, keys);
    var u := UnknownIn(task.needs, keys);
    if u.None? {
      forall m | 0 <= m < |raw.needs|
        ensures Trim(raw.needs[m]) in keys
      {
        assert NeedsKey(raw, Trim(raw.needs[m]));
      }
    } else {
      var i := FirstMissing(task.needs, keys);
      var at :| InOrder(raw.needs, task.needs, at) && forall p: nat :: p < |raw.needs| ==>
        (p in at <==> IsFirstOf(raw.needs, p));
      forall m | 0 <= m < at[i]
        ensures Trim(raw.needs[m]) in keys
      {
        var q := m;
        if !IsFirstOf(raw.needs, m) {
          q := FirstNamed(raw.needs, m);
        }
        var j :| 0 <= j < |at| && at[j] == q;
        assert task.needs[j] == Trim(raw.needs[m]);
      }
      assert UnknownAt(raw.needs, at[i], keys);
    }
  }

  lemma {:induction false} FirstMissing(needs: seq<TaskKey>, keys: set<TaskKey>) returns (i: nat)
    requires UnknownIn(needs, keys).Some?
    ensures i < |needs| && UnknownIn(needs, keys) == Some(needs[i]) && needs[i] !in keys
    ensures forall j :: 0 <= j < i ==> needs[j] in keys
  {
    i := 0;
    if needs[0] in keys {
      var rest := FirstMissing(needs[1..], keys);
      i := rest + 1;
    }
  }

  /** A parse error of the tasks is the first problem there is. */
  lemma ParseErrorIsFirst(raw: seq<RawTask>, defaults: PlanDefaults)
    requires ParseTasks(raw, {}, defaults).Err?
    ensures exists at: nat :: IsFirstProblem(raw, at, ParseTasks(raw, {}, defaults).error)
  {
    hide ParseTasks, ParseTask, TaskOk, IsProblem, Trim;
    var at := FirstProblem(raw, {}, defaults);
    TasksMean(raw[..at], {}, defaults);
    assert {} + KeysBefore(raw, at) == KeysBefore(raw, at);
    forall i | 0 <= i < at
      ensures TaskOk(raw[i])
    {
      assert raw[..at][i] == raw[i];
    }
    forall i, j | 0 <= i < j < at
      ensures Trim(raw[i].key) != Trim(raw[j].key)
    {
      assert raw[..at][i] == raw[i] && raw[..at][j] == raw[j];
    }
    assert IsFirstProblem(raw, at, ParseTasks(raw, {}, defaults).error);
  }

  /** Accepts exactly the well-formed plans. */
  method Validate(raw: RawPlan, defaults: PlanDefaults) returns (result: Result<Plan, PlanError>, ghost order: seq<nat>)
    ensures result.Ok? <==> WellFormed(raw)
    ensures result.Ok? ==> PlanOf(raw, defaults, result.value, order)
    ensures result.Err? ==> RejectedWith(raw, defaults, result.error)
  {
    hide ParseTasks, FirstUnknown, Cyclic, RawCycle, LexLeq, Arranged, IsTopological, ReachesCycle, IsFirstProblem;
    hide IsFirstUnknown, IsParsed, IsTextError, Trim;
    order := [];
    if raw.blocked.Some? && Trim(raw.blocked.value) != "" {
      return Err(BlockedBy(Trim(raw.blocked.value))), [];
    }
    if raw.tasks == [] {
      return Err(Empty), [];
    }
    TasksMean(raw.tasks, {}, defaults);
    var parsed, seen := ReadTasks(raw.tasks, defaults);
    if parsed.Err? {
      ParseErrorIsFirst(raw.tasks, defaults);
      return Err(parsed.error), [];
    }
    var tasks := parsed.value;
    ParsedGraph(raw.tasks, tasks, defaults);
    assert AllParsed(raw.tasks, tasks, defaults);
    UnknownIsFirst(raw.tasks, tasks, defaults);
    TextMeans(raw.summary, 200, '\n');
    var unknown := FindUnknown(tasks, seen);
    if unknown.Some? {
      return Err(unknown.value), [];
    }
    var sorted, found := TopoSort(tasks);
    if sorted.Err? {
      return Err(sorted.error), [];
    }
    var summary := ParseTitle(raw.summary);
    if summary.Err? {
      return Err(BadSummary(summary.error)), [];
    }
    var reference := if raw.reference.Some? && !Blank(raw.reference.value) then raw.reference else None;
    return Ok(Plan(summary.value, reference, sorted.value)), found;
  }
}
