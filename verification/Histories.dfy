// What the history of a task holds, read off its own records: one attempt per claim, each told by the records
// between that claim and the next.
module Histories {
  import opened Ledger
  import opened Metrics

  // ---- the records of one bead ----------------------------------------------------------------------------

  /** `rs` are the records at the positions `at` of the log, in log order. */
  predicate AtPositions(log: seq<Record>, rs: seq<Record>, at: seq<nat>) {
    && |at| == |rs|
    && (forall i, j :: 0 <= i < j < |at| ==> at[i] < at[j])
    && forall i :: 0 <= i < |at| ==> at[i] < |log| && rs[i] == log[at[i]]
  }

  /** The records of a bead are all those of the log that name it and have a time, in log order. */
  lemma {:induction false} RecordsAreExact(b: string, log: seq<Record>) returns (at: seq<nat>)
    ensures AtPositions(log, RecordsOf(b, log), at)
    ensures forall p: nat :: p < |log| ==> (p in at <==> log[p].bead == Some(b) && log[p].at.Some?)
  {
    at := [];
    if log != [] {
      var n := |log| - 1;
      var before := RecordsAreExact(b, log[..n]);
      at := before + if log[n].bead == Some(b) && log[n].at.Some? then [n] else [];
      PositionsOn(log, RecordsOf(b, log[..n]), before, n);
      assert forall p: nat :: p < n ==> log[..n][p] == log[p];
      assert forall p: nat :: p in before ==> p < n;
    }
  }

  lemma PositionsOn(log: seq<Record>, rs: seq<Record>, at: seq<nat>, n: nat)
    requires n < |log| && AtPositions(log[..n], rs, at)
    ensures AtPositions(log, rs, at) && AtPositions(log, rs + [log[n]], at + [n])
    ensures forall p: nat :: p in at ==> p < n
  {
    assert forall i :: 0 <= i < |at| ==> log[..n][at[i]] == log[at[i]];
  }

  /** The beads of an epic are its own and those whose name continues its name after a dot. */
  lemma UnderMeans(epic: string, b: string)
    ensures Under(epic, b) <==> b == epic || exists rest :: b == epic + "." + rest
  {
    if Under(epic, b) && b != epic {
      var rest := b[|epic| + 1..];
      assert b == epic + "." + rest;
    }
    if rest :| b == epic + "." + rest {
      assert b == epic + ("." + rest) && b[..|epic|] == epic && b[|epic|] == '.';
    }
  }

  // ---- windows --------------------------------------------------------------------------------------------

  predicate IsClaim(r: Record) {
    r.kind == "claimed"
  }

  function ClaimCount(records: seq<Record>): nat {
    if records == [] then 0
    else ClaimCount(records[..|records| - 1]) + if IsClaim(records[|records| - 1]) then 1 else 0
  }

  /** The `i`-th claim is at `from`, and the next one, or the end of the records, at `to`. */
  predicate IsWindow(records: seq<Record>, i: nat, from: nat, to: nat) {
    && from < to <= |records| && IsClaim(records[from]) && ClaimCount(records[..from]) == i
    && (forall q :: from < q < to ==> !IsClaim(records[q]))
    && (to < |records| ==> IsClaim(records[to]))
  }

  /** The last record of the kind between `from` and `to`. */
  predicate LastOf(records: seq<Record>, from: int, to: nat, kind: string, p: nat) {
    && from < p < to <= |records| && records[p].kind == kind
    && forall q :: p < q < to ==> records[q].kind != kind
  }

  predicate NoneOf(records: seq<Record>, from: int, to: nat, kind: string) {
    to <= |records| && -1 <= from && forall q :: from < q < to ==> records[q].kind != kind
  }

  /** How a record ends an attempt, if it does. */
  function Ending(r: Record): Option<string> {
    if r.kind == "verified" && r.passed == Some(false) then Some("verify_failed")
    else if r.kind == "integrated" && !r.landed then Some("rejected")
    else if r.kind == "released" || r.kind == "lease_reaped" || r.kind == "escalated" || r.kind == "provider_stopped"
    then Some(r.kind)
    else None
  }

  predicate LastEnding(records: seq<Record>, from: nat, to: nat, p: nat) {
    && from < p < to <= |records| && Ending(records[p]).Some?
    && forall q :: p < q < to ==> Ending(records[q]).None?
  }

  predicate NoEnding(records: seq<Record>, from: nat, to: nat) {
    to <= |records| && forall q :: from < q < to ==> Ending(records[q]).None?
  }

  /** The attempt says what the last record of each kind in its window says, and nothing where there is none. */
  ghost predicate Tells(records: seq<Record>, from: nat, to: nat, a: Attempt) {
    && from < to <= |records| && records[from].at == Some(a.claimed)
    && (NoneOf(records, from, to, "submitted") ==> a.submitted == None && a.tokens == 0)
    && (forall p: nat :: LastOf(records, from, to, "submitted", p) ==>
          a.submitted == records[p].at && a.tokens == records[p].tokens)
    && (NoneOf(records, from, to, "verify_started") ==> a.verifyStarted == None)
    && (forall p: nat :: LastOf(records, from, to, "verify_started", p) ==> a.verifyStarted == records[p].at)
    && (NoneOf(records, from, to, "verified") ==> a.verified == None && a.passed == None)
    && (forall p: nat :: LastOf(records, from, to, "verified", p) ==>
          a.verified == records[p].at && a.passed == records[p].passed)
    && (NoneOf(records, from, to, "integrate_started") ==> a.integrateStarted == None)
    && (forall p: nat :: LastOf(records, from, to, "integrate_started", p) ==> a.integrateStarted == records[p].at)
    && (NoneOf(records, from, to, "integrated") ==> a.integrated == None && !a.landed)
    && (forall p: nat :: LastOf(records, from, to, "integrated", p) ==>
          a.integrated == records[p].at && a.landed == records[p].landed)
    && (NoEnding(records, from, to) ==> a.endedBy == None)
    && (forall p: nat :: LastEnding(records, from, to, p) ==> a.endedBy == Ending(records[p]))
  }

  /** The plan's part: the time and the needs of the last planning. */
  ghost predicate TellsPlan(records: seq<Record>, m: TaskMetrics) {
    && (NoneOf(records, -1, |records|, "task_planned") ==> m.planned == None && m.needs == [])
    && forall p: nat :: LastOf(records, -1, |records|, "task_planned", p) ==>
         m.planned == records[p].at && m.needs == records[p].needs
  }

  /** Every attempt of a history is told by the window of its claim. */
  ghost predicate IsHistory(task: string, records: seq<Record>, m: TaskMetrics) {
    && m.task == task && TellsPlan(records, m) && |m.attempts| == ClaimCount(records)
    && forall i: nat :: i < |m.attempts| ==> IsTold(records, i, m.attempts[i])
  }

  /** Attempt `i` is told by the window of the `i`-th claim. */
  ghost predicate IsTold(records: seq<Record>, i: nat, a: Attempt) {
    exists from: nat, to: nat :: IsWindow(records, i, from, to) && Tells(records, from, to, a)
  }

  /** The fold of dated records is their history, attempt by attempt and field by field. */
  lemma {:induction false} HistoryIsExact(task: string, records: seq<Record>)
    requires forall r :: r in records ==> r.at.Some?
    ensures IsHistory(task, records, History(task, records))
  {
    hide IsHistory, History;
    if records == [] {
      NothingHappened(task);
    } else {
      var n := |records| - 1;
      assert records[n] in records && forall r :: r in records[..n] ==> r in records;
      HistoryIsExact(task, records[..n]);
      HistoryOn(task, records[..n], records[n]);
      assert records[..n] + [records[n]] == records;
    }
  }

  lemma NothingHappened(task: string)
    ensures IsHistory(task, [], History(task, []))
  {
  }

  lemma HistoryOn(task: string, records: seq<Record>, r: Record)
    requires r.at.Some? && IsHistory(task, records, History(task, records))
    ensures IsHistory(task, records + [r], History(task, records + [r]))
  {
    hide OnTask, Tells, TellsPlan, History;
    var m, more := History(task, records), records + [r];
    HistoryNext(task, records, r);
    PlanOn(records, m, r);
    assert more[..|records|] == records;
    OnTaskKeeps(m, r, r.at.value);
    var after := History(task, more);
    assert ClaimCount(more) == ClaimCount(records) + if IsClaim(r) then 1 else 0;
    assert after == OnTask(m, r, r.at.value);
    assert TellsPlan(more, after);
    forall i: nat | i < |after.attempts|
      ensures IsTold(more, i, after.attempts[i])
    {
      if i == |m.attempts| {
        NewWindow(records, r, after.attempts[i]);
      } else {
        var from: nat, to: nat :| IsWindow(records, i, from, to) && Tells(records, from, to, m.attempts[i]);
        if to < |records| {
          CountsOn(records, from, to);
          ClosedWindow(records, r, i, from, to, m.attempts[i]);
        } else {
          CountToEnd(records, i, from);
          OpenWindow(records, r, i, from, m.attempts[i], after.attempts[i]);
        }
      }
    }
  }

  /** A record opens an attempt or moves the last one. */
  lemma OnTaskKeeps(m: TaskMetrics, r: Record, t: Secs)
    ensures var after := OnTask(m, r, t);
            && after.task == m.task
            && |after.attempts| == |m.attempts| + (if IsClaim(r) then 1 else 0)
            && (forall i :: 0 <= i < |m.attempts| - 1 || (0 <= i < |m.attempts| && IsClaim(r)) ==>
                  after.attempts[i] == m.attempts[i])
            && (IsClaim(r) ==> after.attempts[|m.attempts|]
                               == Attempt(t, None, None, None, None, None, None, false, None, 0))
            && (!IsClaim(r) && m.attempts != [] ==>
                  after.attempts[|m.attempts| - 1]
                  == if r.kind == "task_planned" then m.attempts[|m.attempts| - 1]
                     else OnAttempt(m.attempts[|m.attempts| - 1], r, t))
  {
    hide OnAttempt;
  }

  lemma PlanOn(records: seq<Record>, m: TaskMetrics, r: Record)
    requires r.at.Some? && TellsPlan(records, m)
    ensures TellsPlan(records + [r], OnTask(m, r, r.at.value))
  {
    hide OnAttempt;
    var more, n := records + [r], |records|;
    if r.kind == "task_planned" {
      assert LastOf(more, -1, n + 1, "task_planned", n);
    } else {
      assert more[..n] == records;
      LastStays(records, more, n + 1, -1, "task_planned");
      assert forall p: nat :: LastOf(records, -1, n, "task_planned", p) ==> more[p] == records[p];
    }
  }

  /** What the last record of a kind is does not change with a record of another. */
  lemma LastStays(records: seq<Record>, more: seq<Record>, end: nat, from: int, kind: string)
    requires |more| == end == |records| + 1 && more[..|records|] == records
    requires more[|records|].kind != kind && -1 <= from
    ensures NoneOf(more, from, end, kind) <==> NoneOf(records, from, |records|, kind)
    ensures forall p: nat :: LastOf(more, from, end, kind, p) <==> LastOf(records, from, |records|, kind, p)
  {
    assert forall q :: 0 <= q < |records| ==> more[q] == records[q];
    assert forall q :: 0 <= q < |records| ==> records[q] == more[q];
  }

  /** The last record of a kind after one more record: that one if it is of the kind, else as before. */
  lemma LastOn(records: seq<Record>, more: seq<Record>, end: nat, from: int, kind: string)
    requires |more| == end == |records| + 1 && more[..|records|] == records && -1 <= from < |records|
    ensures var r := more[|records|];
            if r.kind == kind
            then !NoneOf(more, from, end, kind) && forall p: nat :: LastOf(more, from, end, kind, p) <==> p == |records|
            else
              && (NoneOf(more, from, end, kind) <==> NoneOf(records, from, |records|, kind))
              && forall p: nat :: LastOf(more, from, end, kind, p) <==> LastOf(records, from, |records|, kind, p)
  {
    if more[|records|].kind != kind {
      LastStays(records, more, end, from, kind);
    }
  }

  lemma EndingOn(records: seq<Record>, more: seq<Record>, end: nat, from: nat)
    requires |more| == end == |records| + 1 && more[..|records|] == records && from < |records|
    ensures if Ending(more[|records|]).Some?
            then !NoEnding(more, from, end) && forall p: nat :: LastEnding(more, from, end, p) <==> p == |records|
            else
              && (NoEnding(more, from, end) <==> NoEnding(records, from, |records|))
              && forall p: nat :: LastEnding(more, from, end, p) <==> LastEnding(records, from, |records|, p)
  {
    hide Ending;
    assert forall q :: 0 <= q < |records| ==> more[q] == records[q];
    assert forall q :: 0 <= q < |records| ==> records[q] == more[q];
  }

  /** What one record does to an attempt, field by field. */
  lemma OnAttemptFields(a: Attempt, r: Record, t: Secs)
    ensures var b := OnAttempt(a, r, t);
            && b.claimed == a.claimed
            && b.submitted == (if r.kind == "submitted" then Some(t) else a.submitted)
            && b.tokens == (if r.kind == "submitted" then r.tokens else a.tokens)
            && b.verifyStarted == (if r.kind == "verify_started" then Some(t) else a.verifyStarted)
            && b.verified == (if r.kind == "verified" then Some(t) else a.verified)
            && b.passed == (if r.kind == "verified" then r.passed else a.passed)
            && b.integrateStarted == (if r.kind == "integrate_started" then Some(t) else a.integrateStarted)
            && b.integrated == (if r.kind == "integrated" then Some(t) else a.integrated)
            && b.landed == (if r.kind == "integrated" then r.landed else a.landed)
            && b.endedBy == (if Ending(r).Some? then Ending(r) else a.endedBy)
    ensures r.kind == "task_planned" ==> Ending(r).None?
  {
  }

  /** A new record moves the attempt of the open window as the window says. */
  lemma TellsOn(records: seq<Record>, r: Record, from: nat, a: Attempt)
    requires r.at.Some? && !IsClaim(r) && from < |records| && Tells(records, from, |records|, a)
    ensures Tells(records + [r], from, |records| + 1,
                  if r.kind == "task_planned" then a else OnAttempt(a, r, r.at.value))
  {
    hide LastOf, NoneOf, LastEnding, NoEnding, IsClaim, Ending, OnAttempt;
    OnAttemptFields(a, r, r.at.value);
    var more, end := records + [r], |records| + 1;
    assert more[|records|] == r && more[from] == records[from] && more[..|records|] == records;
    LastOn(records, more, end, from, "submitted");
    LastOn(records, more, end, from, "verify_started");
    LastOn(records, more, end, from, "verified");
    LastOn(records, more, end, from, "integrate_started");
    LastOn(records, more, end, from, "integrated");
    EndingOn(records, more, end, from);
    SamePlaces(records, r, from);
  }

  /** What is last in the old records is there in the new ones. */
  lemma SamePlaces(records: seq<Record>, r: Record, from: nat)
    ensures forall p: nat, kind :: LastOf(records, from, |records|, kind, p) ==>
              p < |records| && (records + [r])[p] == records[p]
    ensures forall p: nat :: LastEnding(records, from, |records|, p) ==>
              p < |records| && (records + [r])[p] == records[p]
  {
  }

  lemma OpenWindow(records: seq<Record>, r: Record, i: nat, from: nat, a: Attempt, after: Attempt)
    requires r.at.Some? && IsWindow(records, i, from, |records|) && Tells(records, from, |records|, a)
    requires after == if IsClaim(r) || r.kind == "task_planned" then a else OnAttempt(a, r, r.at.value)
    ensures IsTold(records + [r], i, after)
  {
    hide Tells, OnAttempt;
    var more, n := records + [r], |records|;
    assert more[..from] == records[..from] && more[n] == r;
    assert forall q :: 0 <= q < n ==> more[q] == records[q];
    if IsClaim(r) {
      TellsStays(records, r, from, n, a);
      assert IsWindow(more, i, from, n);
    } else {
      TellsOn(records, r, from, a);
      assert IsWindow(more, i, from, n + 1);
    }
  }

  lemma ClosedWindow(records: seq<Record>, r: Record, i: nat, from: nat, to: nat, a: Attempt)
    requires IsWindow(records, i, from, to) && to < |records| && Tells(records, from, to, a)
    ensures IsWindow(records + [r], i, from, to) && Tells(records + [r], from, to, a)
  {
    hide Tells;
    var more := records + [r];
    assert more[..from] == records[..from];
    assert forall q :: 0 <= q < |records| ==> more[q] == records[q];
    TellsStays(records, r, from, to, a);
  }

  /** A window tells the same whatever comes after it. */
  lemma TellsStays(records: seq<Record>, r: Record, from: nat, to: nat, a: Attempt)
    requires to <= |records| && Tells(records, from, to, a)
    ensures Tells(records + [r], from, to, a)
  {
    hide LastOf, NoneOf, LastEnding, NoEnding;
    SameInside(records, r, from, to);
  }

  lemma SameInside(records: seq<Record>, r: Record, from: nat, to: nat)
    requires from < to <= |records|
    ensures (records + [r])[from] == records[from]
    ensures forall kind :: NoneOf(records + [r], from, to, kind) <==> NoneOf(records, from, to, kind)
    ensures forall kind, p: nat :: LastOf(records + [r], from, to, kind, p) <==> LastOf(records, from, to, kind, p)
    ensures NoEnding(records + [r], from, to) <==> NoEnding(records, from, to)
    ensures forall p: nat :: LastEnding(records + [r], from, to, p) <==> LastEnding(records, from, to, p)
    ensures forall p: nat :: p < to ==> (records + [r])[p] == records[p]
    ensures forall kind, p: nat :: LastOf(records, from, to, kind, p) ==> p < to
    ensures forall p: nat :: LastEnding(records, from, to, p) ==> p < to
  {
    hide Ending;
    var more := records + [r];
    assert forall q :: 0 <= q < to ==> more[q] == records[q];
    assert forall q :: 0 <= q < to ==> records[q] == more[q];
    forall kind
      ensures NoneOf(more, from, to, kind) <==> NoneOf(records, from, to, kind)
    {
    }
    forall kind, p: nat
      ensures LastOf(more, from, to, kind, p) <==> LastOf(records, from, to, kind, p)
    {
    }
  }

  lemma NewWindow(records: seq<Record>, r: Record, a: Attempt)
    requires r.at.Some? && IsClaim(r) && a == Attempt(r.at.value, None, None, None, None, None, None, false, None, 0)
    ensures IsTold(records + [r], ClaimCount(records), a)
  {
    var more, n := records + [r], |records|;
    assert more[..n] == records;
    assert IsWindow(more, ClaimCount(records), n, n + 1);
    assert Tells(more, n, n + 1, a);
  }

  lemma {:induction false} CountUpTo(records: seq<Record>, k: nat)
    requires k <= |records|
    ensures ClaimCount(records[..k]) <= ClaimCount(records)
    ensures (forall q :: k <= q < |records| ==> !IsClaim(records[q])) ==>
              ClaimCount(records[..k]) == ClaimCount(records)
    decreases |records|
  {
    if k < |records| {
      var n := |records| - 1;
      assert records[..n][..k] == records[..k];
      CountUpTo(records[..n], k);
    } else {
      assert records[..k] == records;
    }
  }

  /** With a later claim the window is not the last. */
  lemma CountsOn(records: seq<Record>, from: nat, to: nat)
    requires from < to < |records| && IsClaim(records[from]) && IsClaim(records[to])
    ensures ClaimCount(records[..from]) + 2 <= ClaimCount(records)
  {
    hide ClaimCount;
    CountNext(records, from);
    CountNext(records, to);
    assert records[..to][..from + 1] == records[..from + 1];
    CountUpTo(records[..to], from + 1);
    CountUpTo(records, to + 1);
  }

  lemma CountNext(records: seq<Record>, k: nat)
    requires k < |records| && IsClaim(records[k])
    ensures ClaimCount(records[..k + 1]) == ClaimCount(records[..k]) + 1
  {
    assert records[..k + 1][..k] == records[..k];
  }

  /** With none it is. */
  lemma CountToEnd(records: seq<Record>, i: nat, from: nat)
    requires IsWindow(records, i, from, |records|)
    ensures ClaimCount(records) == i + 1
  {
    hide ClaimCount;
    CountNext(records, from);
    CountUpTo(records, from + 1);
  }
}
