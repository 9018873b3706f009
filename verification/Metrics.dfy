// Throughput metrics: per-task histories folded from the event log, and totals over them. Times are
// whole seconds.
module Metrics {
  import opened Ledger

  type Secs = int

  /** One session of a task, from its claim to whatever ended it. */
  datatype Attempt = Attempt(
    claimed: Secs,
    submitted: Option<Secs>,
    verifyStarted: Option<Secs>,
    verified: Option<Secs>,
    passed: Option<bool>,
    integrateStarted: Option<Secs>,
    integrated: Option<Secs>,
    landed: bool,
    endedBy: Option<string>,
    tokens: nat) {

    function Session(): Option<Secs> {
      if submitted.Some? then Some(submitted.value - claimed) else None
    }

    function Seconds(): Secs {
      if submitted.Some? then submitted.value - claimed else 0
    }
  }

  datatype TaskMetrics = TaskMetrics(task: string, planned: Option<Secs>, needs: seq<string>, attempts: seq<Attempt>)

  /** A line of the event log: its time when it is a number, its bead when it has one, and the details a
      stage edge looks at. */
  datatype Record = Record(
    at: Option<Secs>,
    bead: Option<string>,
    kind: string,
    needs: seq<string>,
    tokens: nat,
    passed: Option<bool>,
    landed: bool)

  // ---- the log folded into histories -----------------------------------------------------------------------------

  /** `b` is the epic or one of its beads. */
  predicate Under(epic: string, b: string) {
    b == epic || (epic <= b && b[|epic|..] != "" && b[|epic|] == '.')
  }

  function Unstarted(task: string): TaskMetrics {
    TaskMetrics(task, None, [], [])
  }

  /** What a record at `t` does to the last attempt of its task. */
  function OnAttempt(a: Attempt, r: Record, t: Secs): Attempt {
    match r.kind
    case "submitted" => a.(submitted := Some(t), tokens := r.tokens)
    case "verify_started" => a.(verifyStarted := Some(t))
    case "verified" =>
      a.(verified := Some(t), passed := r.passed,
         endedBy := if r.passed == Some(false) then Some("verify_failed") else a.endedBy)
    case "integrate_started" => a.(integrateStarted := Some(t))
    case "integrated" =>
      a.(integrated := Some(t), landed := r.landed, endedBy := if r.landed then a.endedBy else Some("rejected"))
    case _ =>
      if r.kind in {"released", "lease_reaped", "escalated", "provider_stopped"} then a.(endedBy := Some(r.kind)) else a
  }

  function OnTask(m: TaskMetrics, r: Record, t: Secs): TaskMetrics {
    match r.kind
    case "task_planned" => m.(planned := Some(t), needs := r.needs)
    case "claimed" => m.(attempts := m.attempts + [Attempt(t, None, None, None, None, None, None, false, None, 0)])
    case _ =>
      if m.attempts == [] then m
      else
        var last := |m.attempts| - 1;
        m.(attempts := m.attempts[last := OnAttempt(m.attempts[last], r, t)])
  }

  /** The dated records of one bead, in log order. */
  function RecordsOf(b: string, log: seq<Record>): seq<Record> {
    if log == [] then []
    else
      var n := |log| - 1;
      RecordsOf(b, log[..n]) + if log[n].bead == Some(b) && log[n].at.Some? then [log[n]] else []
  }

  lemma {:induction false} RecordsAreDated(b: string, log: seq<Record>)
    ensures forall r :: r in RecordsOf(b, log) ==> r.at.Some? && r.bead == Some(b) && r in log
    ensures RecordsOf(b, log) != [] <==> exists r :: r in log && r.bead == Some(b) && r.at.Some?
  {
    if log != [] {
      RecordsAreDated(b, log[..|log| - 1]);
      assert forall r :: r in log <==> r in log[..|log| - 1] || r == log[|log| - 1];
    }
  }

  /** One task's history from its own records. */
  function History(task: string, records: seq<Record>): TaskMetrics {
    if records == [] then Unstarted(task)
    else
      var r := records[|records| - 1];
      var before := History(task, records[..|records| - 1]);
      if r.at.Some? then OnTask(before, r, r.at.value) else before
  }

  /** `tasks` holds, for every bead of the epic with dated records in `log`, the history of those records. */
  ghost predicate Folded(epic: string, log: seq<Record>, tasks: map<string, TaskMetrics>) {
    && (forall b :: b in tasks <==> Under(epic, b) && b != epic && RecordsOf(b, log) != [])
    && forall b :: b in tasks ==> tasks[b] == History(b, RecordsOf(b, log))
  }

  lemma RecordsNext(b: string, log: seq<Record>, r: Record)
    ensures RecordsOf(b, log + [r]) == RecordsOf(b, log) + if r.bead == Some(b) && r.at.Some? then [r] else []
  {
    assert (log + [r])[..|log|] == log;
  }

  lemma HistoryNext(task: string, records: seq<Record>, r: Record)
    requires r.at.Some?
    ensures History(task, records + [r]) == OnTask(History(task, records), r, r.at.value)
  {
    assert (records + [r])[..|records|] == records;
  }

  /** A record of the epic's bead `b` moves that bead's history on and no other. */
  lemma FoldedNext(epic: string, log: seq<Record>, tasks: map<string, TaskMetrics>, r: Record, b: string)
    requires Folded(epic, log, tasks) && r.at.Some? && r.bead == Some(b) && Under(epic, b) && b != epic
    ensures var task := if b in tasks then tasks[b] else Unstarted(b);
            Folded(epic, log + [r], tasks[b := OnTask(task, r, r.at.value)])
  {
    hide OnTask, Under, RecordsOf;
    HistoryNext(b, RecordsOf(b, log), r);
    forall x
      ensures RecordsOf(x, log + [r]) == if x == b then RecordsOf(x, log) + [r] else RecordsOf(x, log)
    {
      RecordsNext(x, log, r);
    }
  }

  lemma FoldedSkips(epic: string, log: seq<Record>, tasks: map<string, TaskMetrics>, r: Record)
    requires Folded(epic, log, tasks)
    requires r.at.None? || r.bead.None? || !Under(epic, r.bead.value) || r.bead.value == epic
    ensures Folded(epic, log + [r], tasks)
  {
    hide OnTask, RecordsOf, History;
    forall x | Under(epic, x) && x != epic
      ensures RecordsOf(x, log + [r]) == RecordsOf(x, log)
    {
      RecordsNext(x, log, r);
    }
  }

  /** Folding the whole log at once gives every task of the epic the history of its own records; records of
      other beads change nothing. */
  method TasksOf(epic: string, log: seq<Record>) returns (tasks: map<string, TaskMetrics>)
    ensures Folded(epic, log, tasks)
  {
    hide Folded, OnTask;
    tasks := map[];
    assert Folded(epic, log[..0], tasks) by { NothingFolded(epic); assert log[..0] == []; }
    for i := 0 to |log|
      invariant Folded(epic, log[..i], tasks)
    {
      var r := log[i];
      assert log[..i + 1] == log[..i] + [r];
      if r.at.Some? && r.bead.Some? && Under(epic, r.bead.value) && r.bead.value != epic {
        var b := r.bead.value;
        var task := if b in tasks then tasks[b] else Unstarted(b);
        FoldedNext(epic, log[..i], tasks, r, b);
        tasks := tasks[b := OnTask(task, r, r.at.value)];
      } else {
        FoldedSkips(epic, log[..i], tasks, r);
      }
    }
    assert log[..|log|] == log;
  }

  lemma NothingFolded(epic: string)
    ensures Folded(epic, [], map[])
  {
  }

  /** A task has one attempt per claim in the log. */
  lemma {:induction false} OneAttemptPerClaim(task: string, records: seq<Record>)
    requires forall r :: r in records ==> r.at.Some?
    ensures |History(task, records).attempts| == |Claims(records)|
    ensures forall i :: 0 <= i < |Claims(records)| ==> History(task, records).attempts[i].claimed == Claims(records)[i]
  {
    hide OnTask;
    if records != [] {
      var n := |records| - 1;
      var before, r := History(task, records[..n]), records[n];
      OneAttemptPerClaim(task, records[..n]);
      assert r in records;
      OnTaskClaims(before, r, r.at.value);
      assert History(task, records) == OnTask(before, r, r.at.value);
      assert Claims(records) == Claims(records[..n]) + if r.kind == "claimed" then [r.at.value] else [];
    }
  }

  /** A record adds an attempt exactly when it is a claim, at its time, and moves no other claim. */
  lemma OnTaskClaims(t: TaskMetrics, r: Record, at: Secs)
    ensures var before, after := t.attempts, OnTask(t, r, at).attempts;
            && |after| == |before| + (if r.kind == "claimed" then 1 else 0)
            && (forall i :: 0 <= i < |before| ==> after[i].claimed == before[i].claimed)
            && (r.kind == "claimed" ==> after[|before|].claimed == at)
  {
  }

  /** The times of the claims among `records`. */
  function Claims(records: seq<Record>): seq<Secs> {
    if records == [] then []
    else
      var r := records[|records| - 1];
      Claims(records[..|records| - 1]) + if r.kind == "claimed" && r.at.Some? then [r.at.value] else []
  }

  // ---- totals ------------------------------------------------------------------------------------------------------

  /** Seconds in sessions that landed (or did not), over `attempts`. */
  function SecondsIn(attempts: seq<Attempt>, landed: bool): Secs {
    if attempts == [] then 0
    else (if attempts[0].landed == landed then attempts[0].Seconds() else 0) + SecondsIn(attempts[1..], landed)
  }

  function AllSeconds(attempts: seq<Attempt>): Secs {
    if attempts == [] then 0 else attempts[0].Seconds() + AllSeconds(attempts[1..])
  }

  lemma {:induction false} SecondsSplit(attempts: seq<Attempt>)
    ensures AllSeconds(attempts) == SecondsIn(attempts, true) + SecondsIn(attempts, false)
  {
    if attempts != [] {
      SecondsSplit(attempts[1..]);
    }
  }

  function Own(t: TaskMetrics): Secs {
    SecondsIn(t.attempts, true)
  }

  function RetryTax(tasks: seq<TaskMetrics>): Secs {
    if tasks == [] then 0 else SecondsIn(tasks[0].attempts, false) + RetryTax(tasks[1..])
  }

  function Work(tasks: seq<TaskMetrics>): Secs {
    if tasks == [] then 0 else AllSeconds(tasks[0].attempts) + Work(tasks[1..])
  }

  function LandedWork(tasks: seq<TaskMetrics>): Secs {
    if tasks == [] then 0 else Own(tasks[0]) + LandedWork(tasks[1..])
  }

  /** All work is either landed or retry tax. */
  lemma {:induction false} WorkSplits(tasks: seq<TaskMetrics>)
    ensures Work(tasks) == LandedWork(tasks) + RetryTax(tasks)
  {
    if tasks != [] {
      WorkSplits(tasks[1..]);
      SecondsSplit(tasks[0].attempts);
    }
  }
}
