// Live sessions over time: a sweep line over the starts and ends of attempts.
module Concurrency {
  import opened Ledger
  import opened Metrics

  /** An ordered map from times to changes, as its entries in ascending order. */
  type Deltas = seq<(Secs, int)>

  predicate Ascending(d: Deltas) {
    forall i, j :: 0 <= i < j < |d| ==> d[i].0 < d[j].0
  }

  /** Add `change` to the entry at `t`, which is made if there is none. */
  function Bump(d: Deltas, t: Secs, change: int): Deltas {
    if d == [] || t < d[0].0 then [(t, change)] + d
    else if t == d[0].0 then [(t, d[0].1 + change)] + d[1..]
    else [d[0]] + Bump(d[1..], t, change)
  }

  /** The sum of the changes at or before `s`. */
  function SumUpTo(d: Deltas, s: Secs): int {
    if d == [] then 0 else (if d[0].0 <= s then d[0].1 else 0) + SumUpTo(d[1..], s)
  }

  lemma {:induction false} BumpAdds(d: Deltas, t: Secs, change: int, s: Secs)
    ensures SumUpTo(Bump(d, t, change), s) == SumUpTo(d, s) + if t <= s then change else 0
  {
    if d == [] || t < d[0].0 {
      assert ([(t, change)] + d)[1..] == d;
    } else if t == d[0].0 {
      assert ([(t, d[0].1 + change)] + d[1..])[1..] == d[1..];
    } else {
      BumpAdds(d[1..], t, change, s);
      assert ([d[0]] + Bump(d[1..], t, change))[1..] == Bump(d[1..], t, change);
    }
  }

  lemma {:induction false} BumpAscends(d: Deltas, t: Secs, change: int)
    requires Ascending(d)
    ensures Ascending(Bump(d, t, change)) && Bump(d, t, change) != []
    ensures Bump(d, t, change)[0].0 == if d == [] || t <= d[0].0 then t else d[0].0
  {
    if d != [] && d[0].0 < t {
      BumpAscends(d[1..], t, change);
      var rest := Bump(d[1..], t, change);
      assert d[0].0 < rest[0].0;
      assert forall i :: 0 < i < |rest| ==> rest[0].0 < rest[i].0;
    }
  }

  function Start(a: Attempt, origin: Secs): Secs {
    a.claimed - origin
  }

  /** An attempt that was never submitted ends where it starts. */
  function End(a: Attempt, origin: Secs): Secs {
    (if a.submitted.Some? then a.submitted.value else a.claimed) - origin
  }

  function Begun(attempts: seq<Attempt>, origin: Secs, s: Secs): nat {
    if attempts == [] then 0 else (if Start(attempts[0], origin) <= s then 1 else 0) + Begun(attempts[1..], origin, s)
  }

  function Over(attempts: seq<Attempt>, origin: Secs, s: Secs): nat {
    if attempts == [] then 0 else (if End(attempts[0], origin) <= s then 1 else 0) + Over(attempts[1..], origin, s)
  }

  /** How many attempts are between claim and submit at `s`. */
  function Live(attempts: seq<Attempt>, origin: Secs, s: Secs): nat {
    if attempts == [] then 0
    else
      (if attempts[0].submitted.Some? && attempts[0].claimed - origin <= s < attempts[0].submitted.value - origin
       then 1 else 0)
      + Live(attempts[1..], origin, s)
  }

  predicate NoSubmitBeforeClaim(attempts: seq<Attempt>) {
    forall i :: 0 <= i < |attempts| && attempts[i].submitted.Some? ==>
      attempts[i].claimed <= attempts[i].submitted.value
  }

  lemma {:induction false} LiveIsBegunNotOver(attempts: seq<Attempt>, origin: Secs, s: Secs)
    requires NoSubmitBeforeClaim(attempts)
    ensures Live(attempts, origin, s) == Begun(attempts, origin, s) - Over(attempts, origin, s)
  {
    if attempts != [] {
      LiveIsBegunNotOver(attempts[1..], origin, s);
    }
  }

  function AttemptsOf(tasks: seq<TaskMetrics>): seq<Attempt> {
    if tasks == [] then [] else tasks[0].attempts + AttemptsOf(tasks[1..])
  }

  /** The changes of `attempts`, folded from the first. */
  function DeltasOf(attempts: seq<Attempt>, origin: Secs): Deltas {
    if attempts == [] then []
    else
      var n := |attempts| - 1;
      Bump(Bump(DeltasOf(attempts[..n], origin), Start(attempts[n], origin), 1), End(attempts[n], origin), -1)
  }

  lemma {:induction false} CountsSnoc(attempts: seq<Attempt>, a: Attempt, origin: Secs, s: Secs)
    ensures Begun(attempts + [a], origin, s) == Begun(attempts, origin, s) + if Start(a, origin) <= s then 1 else 0
    ensures Over(attempts + [a], origin, s) == Over(attempts, origin, s) + if End(a, origin) <= s then 1 else 0
  {
    if attempts == [] {
      assert attempts + [a] == [a] && [a][1..] == [];
    } else {
      assert (attempts + [a])[1..] == attempts[1..] + [a];
      CountsSnoc(attempts[1..], a, origin, s);
    }
  }

  /** The changes up to a time are what began by then less what was over. */
  lemma {:induction false} DeltasCount(attempts: seq<Attempt>, origin: Secs, s: Secs)
    ensures SumUpTo(DeltasOf(attempts, origin), s) == Begun(attempts, origin, s) - Over(attempts, origin, s)
  {
    if attempts != [] {
      var n := |attempts| - 1;
      var a, before := attempts[n], DeltasOf(attempts[..n], origin);
      DeltasCount(attempts[..n], origin, s);
      BumpAdds(before, Start(a, origin), 1, s);
      BumpAdds(Bump(before, Start(a, origin), 1), End(a, origin), -1, s);
      assert attempts == attempts[..n] + [a];
      CountsSnoc(attempts[..n], a, origin, s);
    }
  }

  lemma {:induction false} DeltasAscend(attempts: seq<Attempt>, origin: Secs)
    ensures Ascending(DeltasOf(attempts, origin))
  {
    if attempts != [] {
      var n := |attempts| - 1;
      DeltasAscend(attempts[..n], origin);
      BumpAscends(DeltasOf(attempts[..n], origin), Start(attempts[n], origin), 1);
      BumpAscends(Bump(DeltasOf(attempts[..n], origin), Start(attempts[n], origin), 1), End(attempts[n], origin), -1);
    }
  }

  function Clamp(n: int): nat {
    if n < 0 then 0 else n
  }

  function Total(d: Deltas): int {
    if d == [] then 0 else Total(d[..|d| - 1]) + d[|d| - 1].1
  }

  lemma {:induction false} SumSnoc(d: Deltas, e: (Secs, int), s: Secs)
    ensures SumUpTo(d + [e], s) == SumUpTo(d, s) + if e.0 <= s then e.1 else 0
  {
    if d == [] {
      assert d + [e] == [e] && [e][1..] == [];
    } else {
      assert (d + [e])[1..] == d[1..] + [e];
      SumSnoc(d[1..], e, s);
    }
  }

  /** The changes up to `s` are the entries up to `s`. */
  lemma {:induction false} SumIsTotalOfPrefix(d: Deltas, k: nat, s: Secs)
    requires k <= |d| && (forall i :: 0 <= i < k ==> d[i].0 <= s) && forall i :: k <= i < |d| ==> s < d[i].0
    ensures SumUpTo(d, s) == Total(d[..k])
    decreases |d|
  {
    if d != [] {
      var n := |d| - 1;
      assert d == d[..n] + [d[n]];
      SumSnoc(d[..n], d[n], s);
      if k < |d| {
        assert d[..n][..k] == d[..k];
        SumIsTotalOfPrefix(d[..n], k, s);
      } else {
        assert d[..k] == d && d[..n][..n] == d[..n];
        SumIsTotalOfPrefix(d[..n], n, s);
      }
    }
  }

  /** Two entries bumped per attempt. */
  method AddChanges(attempts: seq<Attempt>, origin: Secs, before: Deltas, ghost done: seq<Attempt>)
      returns (deltas: Deltas)
    requires before == DeltasOf(done, origin)
    ensures deltas == DeltasOf(done + attempts, origin)
  {
    deltas := before;
    assert done + attempts[..0] == done;
    for k := 0 to |attempts|
      invariant deltas == DeltasOf(done + attempts[..k], origin)
    {
      hide Bump;
      var a := attempts[k];
      ghost var longer := done + attempts[..k + 1];
      assert longer[..|longer| - 1] == done + attempts[..k];
      deltas := Bump(Bump(deltas, Start(a, origin), 1), End(a, origin), -1);
    }
    assert attempts[..|attempts|] == attempts;
  }

  /** The changes of all attempts, in an ordered map. */
  method Collect(tasks: seq<TaskMetrics>, origin: Secs) returns (deltas: Deltas)
    ensures deltas == DeltasOf(AttemptsOf(tasks), origin)
  {
    hide Bump;
    deltas := [];
    ghost var done: seq<Attempt> := [];
    for i := 0 to |tasks|
      invariant done + AttemptsOf(tasks[i..]) == AttemptsOf(tasks) && deltas == DeltasOf(done, origin)
    {
      hide DeltasOf;
      assert tasks[i..][1..] == tasks[i + 1..];
      assert done + (tasks[i].attempts + AttemptsOf(tasks[i + 1..]))
           == done + tasks[i].attempts + AttemptsOf(tasks[i + 1..]);
      deltas := AddChanges(tasks[i].attempts, origin, deltas, done);
      done := done + tasks[i].attempts;
    }
    assert done + [] == done;
  }

  /** One entry per time with a change, with the sessions live from then on: those begun less those over,
      never below zero. */
  method Concurrency(tasks: seq<TaskMetrics>, origin: Secs) returns (out: seq<(Secs, nat)>)
    ensures Swept(AttemptsOf(tasks), origin, out)
  {
    hide DeltasOf, Swept, SumUpTo;
    ghost var attempts := AttemptsOf(tasks);
    var deltas := Collect(tasks, origin);
    var live := 0;
    out := [];
    for i := 0 to |deltas|
      invariant |out| == i && live == Total(deltas[..i])
      invariant forall k :: 0 <= k < i ==> out[k] == (deltas[k].0, Clamp(Total(deltas[..k + 1])))
    {
      assert deltas[..i + 1][..i] == deltas[..i];
      live := live + deltas[i].1;
      out := out + [(deltas[i].0, Clamp(live))];
    }
    PrefixTotalsAreCounts(attempts, origin, out);
  }

  lemma PrefixTotalsAreCounts(attempts: seq<Attempt>, origin: Secs, out: seq<(Secs, nat)>)
    requires var deltas := DeltasOf(attempts, origin);
             |out| == |deltas| && forall k :: 0 <= k < |out| ==> out[k] == (deltas[k].0, Clamp(Total(deltas[..k + 1])))
    ensures Swept(attempts, origin, out)
  {
    hide Bump, Total, SumUpTo;
    var deltas := DeltasOf(attempts, origin);
    DeltasAscend(attempts, origin);
    forall k | 0 <= k < |out|
      ensures out[k].1 == Clamp(Begun(attempts, origin, out[k].0) - Over(attempts, origin, out[k].0))
    {
      SumIsTotalOfPrefix(deltas, k + 1, deltas[k].0);
      DeltasCount(attempts, origin, deltas[k].0);
    }
  }

  /** The entries' times are those of the changes, ascending; each count is begun less over, clamped. */
  ghost predicate Swept(attempts: seq<Attempt>, origin: Secs, out: seq<(Secs, nat)>) {
    var deltas := DeltasOf(attempts, origin);
    && |out| == |deltas|
    && (forall i, j :: 0 <= i < j < |out| ==> out[i].0 < out[j].0)
    && forall k :: 0 <= k < |out| ==>
         && out[k].0 == deltas[k].0
         && out[k].1 == Clamp(Begun(attempts, origin, out[k].0) - Over(attempts, origin, out[k].0))
  }

  function Latest(attempts: seq<Attempt>, origin: Secs): Secs {
    if attempts == [] then 0
    else
      var last := if Start(attempts[0], origin) > End(attempts[0], origin) then Start(attempts[0], origin)
          else End(attempts[0], origin);
      if last > Latest(attempts[1..], origin) then last else Latest(attempts[1..], origin)
  }

  lemma {:induction false} AllOver(attempts: seq<Attempt>, origin: Secs, s: Secs)
    requires Latest(attempts, origin) <= s
    ensures Begun(attempts, origin, s) == |attempts| == Over(attempts, origin, s)
  {
    if attempts != [] {
      AllOver(attempts[1..], origin, s);
    }
  }

  /** `k` is the last entry at or before `s`, if any. */
  ghost predicate CoveredBy(out: seq<(Secs, nat)>, k: int, s: Secs) {
    && -1 <= k < |out|
    && (k >= 0 ==> out[k].0 <= s)
    && (k + 1 < |out| ==> s < out[k + 1].0)
  }

  /** When no submit precedes its claim, the entries say at every moment how many sessions are live: the
      count of the entry in force, none before the first and none after the last; the clamp is never active. */
  lemma CountsAreLiveSessions(attempts: seq<Attempt>, origin: Secs, out: seq<(Secs, nat)>, k: int, s: Secs)
    requires NoSubmitBeforeClaim(attempts) && Swept(attempts, origin, out) && CoveredBy(out, k, s)
    ensures Live(attempts, origin, s) == if k < 0 then 0 else out[k].1
    ensures k >= 0 ==> Begun(attempts, origin, out[k].0) - Over(attempts, origin, out[k].0) == out[k].1
    ensures k == |out| - 1 ==> Live(attempts, origin, s) == 0
  {
    hide Bump;
    var deltas := DeltasOf(attempts, origin);
    LiveIsBegunNotOver(attempts, origin, s);
    DeltasCount(attempts, origin, s);
    SumIsTotalOfPrefix(deltas, k + 1, s);
    if k >= 0 {
      LiveIsBegunNotOver(attempts, origin, out[k].0);
      DeltasCount(attempts, origin, out[k].0);
      SumIsTotalOfPrefix(deltas, k + 1, out[k].0);
    }
    if k == |out| - 1 {
      var end := if Latest(attempts, origin) > s then Latest(attempts, origin) else s;
      AllOver(attempts, origin, end);
      DeltasCount(attempts, origin, end);
      SumIsTotalOfPrefix(deltas, k + 1, end);
    }
  }

  // ---- the entries' times -------------------------------------------------------------------------------------------

  predicate HasTime(d: Deltas, t: Secs) {
    exists k :: 0 <= k < |d| && d[k].0 == t
  }

  /** A session began or was over at `t`; one that was never submitted is over where it began. */
  predicate SomeChange(attempts: seq<Attempt>, origin: Secs, t: Secs) {
    exists i :: 0 <= i < |attempts| &&
      (t == attempts[i].claimed - origin
       || (attempts[i].submitted.Some? && t == attempts[i].submitted.value - origin))
  }

  lemma {:induction false} BumpHasTime(d: Deltas, at: Secs, change: int, t: Secs)
    ensures HasTime(Bump(d, at, change), t) <==> HasTime(d, t) || t == at
  {
    var bumped := Bump(d, at, change);
    if d == [] || at < d[0].0 {
      assert bumped == [(at, change)] + d;
      assert forall k :: 0 <= k < |d| ==> bumped[k + 1] == d[k];
      assert bumped[0].0 == at;
    } else if at == d[0].0 {
      assert forall k :: 0 <= k < |d| ==> bumped[k].0 == d[k].0;
      assert |bumped| == |d|;
    } else {
      var rest := Bump(d[1..], at, change);
      BumpHasTime(d[1..], at, change, t);
      assert bumped == [d[0]] + rest;
      assert forall k :: 0 <= k < |rest| ==> bumped[k + 1] == rest[k];
      assert forall k :: 0 <= k < |d| - 1 ==> d[1..][k] == d[k + 1];
      assert HasTime(bumped, t) <==> t == d[0].0 || HasTime(rest, t) by {
        assert bumped[0] == d[0];
      }
      assert HasTime(d, t) <==> t == d[0].0 || HasTime(d[1..], t);
    }
  }

  lemma {:induction false} DeltasHaveTime(attempts: seq<Attempt>, origin: Secs, t: Secs)
    ensures HasTime(DeltasOf(attempts, origin), t) <==> SomeChange(attempts, origin, t)
  {
    if attempts != [] {
      hide Bump, HasTime;
      var n := |attempts| - 1;
      var a, before := attempts[n], DeltasOf(attempts[..n], origin);
      DeltasHaveTime(attempts[..n], origin, t);
      BumpHasTime(before, Start(a, origin), 1, t);
      BumpHasTime(Bump(before, Start(a, origin), 1), End(a, origin), -1, t);
      LastChange(attempts, origin, t);
    } else {
      assert !HasTime([], t);
    }
  }

  lemma LastChange(attempts: seq<Attempt>, origin: Secs, t: Secs)
    requires attempts != []
    ensures var n := |attempts| - 1;
            SomeChange(attempts, origin, t)
            <==> SomeChange(attempts[..n], origin, t)
                 || t == Start(attempts[n], origin) || t == End(attempts[n], origin)
  {
    var n := |attempts| - 1;
    assert forall i :: 0 <= i < n ==> attempts[..n][i] == attempts[i];
  }

  /** There is an entry for a time exactly when a session began or was over then. */
  lemma EntriesAreChanges(attempts: seq<Attempt>, origin: Secs, out: seq<(Secs, nat)>, t: Secs)
    requires Swept(attempts, origin, out)
    ensures (exists k :: 0 <= k < |out| && out[k].0 == t) <==> SomeChange(attempts, origin, t)
  {
    hide Bump, SomeChange;
    DeltasHaveTime(attempts, origin, t);
  }

  // ---- the area under the curve is the work -------------------------------------------------------------------------

  /** Sessions live times seconds, from the first entry to the last. */
  function Area(out: seq<(Secs, nat)>): int {
    if |out| <= 1 then 0
    else Area(out[..|out| - 1]) + out[|out| - 2].1 * (out[|out| - 1].0 - out[|out| - 2].0)
  }

  /** The sum of time times change. */
  function Moment(d: Deltas): int {
    if d == [] then 0 else d[0].0 * d[0].1 + Moment(d[1..])
  }

  lemma {:induction false} BumpMoves(d: Deltas, t: Secs, change: int)
    ensures Moment(Bump(d, t, change)) == Moment(d) + t * change
  {
    if d == [] || t < d[0].0 {
      assert ([(t, change)] + d)[1..] == d;
    } else if t == d[0].0 {
      assert ([(t, d[0].1 + change)] + d[1..])[1..] == d[1..];
    } else {
      BumpMoves(d[1..], t, change);
      assert ([d[0]] + Bump(d[1..], t, change))[1..] == Bump(d[1..], t, change);
    }
  }

  lemma {:induction false} MomentSnoc(d: Deltas, e: (Secs, int))
    ensures Moment(d + [e]) == Moment(d) + e.0 * e.1
  {
    if d == [] {
      assert d + [e] == [e] && [e][1..] == [];
    } else {
      assert (d + [e])[1..] == d[1..] + [e];
      MomentSnoc(d[1..], e);
    }
  }

  lemma {:induction false} SecondsAppend(a: seq<Attempt>, b: seq<Attempt>)
    ensures AllSeconds(a + b) == AllSeconds(a) + AllSeconds(b)
  {
    if a == [] {
      assert a + b == b;
    } else {
      assert (a + b)[1..] == a[1..] + b;
      SecondsAppend(a[1..], b);
    }
  }

  /** Every attempt takes its own length from the moment. */
  lemma {:induction false} MomentIsWork(attempts: seq<Attempt>, origin: Secs)
    ensures Moment(DeltasOf(attempts, origin)) == -AllSeconds(attempts)
  {
    if attempts != [] {
      hide Bump;
      var n := |attempts| - 1;
      var a, before := attempts[n], DeltasOf(attempts[..n], origin);
      MomentIsWork(attempts[..n], origin);
      BumpMoves(before, Start(a, origin), 1);
      BumpMoves(Bump(before, Start(a, origin), 1), End(a, origin), -1);
      SecondsAppend(attempts[..n], [a]);
      assert attempts == attempts[..n] + [a] && [a][1..] == [];
      assert AllSeconds([a]) == a.Seconds();
    }
  }

  /** The area up to an entry, by summation by parts. */
  lemma {:induction false} AreaByParts(d: Deltas, out: seq<(Secs, nat)>, n: nat)
    requires 0 < n <= |d| == |out|
    requires forall k :: 0 <= k < |d| ==> out[k] == (d[k].0, out[k].1) && out[k].1 == Total(d[..k + 1])
    ensures Area(out[..n]) == d[n - 1].0 * Total(d[..n]) - Moment(d[..n])
  {
    var e := d[n - 1];
    assert d[..n] == d[..n - 1] + [e] && d[..n][..n - 1] == d[..n - 1];
    MomentSnoc(d[..n - 1], e);
    var before := Total(d[..n - 1]);
    assert Total(d[..n]) == before + e.1;
    if n > 1 {
      AreaByParts(d, out, n - 1);
      assert out[..n][..n - 1] == out[..n - 1];
      assert Area(out[..n]) == Area(out[..n - 1]) + before * (e.0 - d[n - 2].0);
    }
    assert e.0 * (before + e.1) == e.0 * before + e.0 * e.1;
  }

  lemma {:induction false} AttemptsAreTheWork(tasks: seq<TaskMetrics>)
    ensures AllSeconds(AttemptsOf(tasks)) == Work(tasks)
  {
    if tasks != [] {
      AttemptsAreTheWork(tasks[1..]);
      SecondsAppend(tasks[0].attempts, AttemptsOf(tasks[1..]));
    }
  }

  /** When no submit precedes its claim, the area under the curve of live sessions is the work of all tasks: the two
      numbers of the report, taken from the log in different ways, agree. */
  lemma AreaIsWork(tasks: seq<TaskMetrics>, origin: Secs, out: seq<(Secs, nat)>)
    requires NoSubmitBeforeClaim(AttemptsOf(tasks)) && Swept(AttemptsOf(tasks), origin, out)
    ensures Area(out) == Work(tasks)
  {
    hide Bump, Total, SumUpTo, Area, Moment;
    var attempts := AttemptsOf(tasks);
    var d := DeltasOf(attempts, origin);
    DeltasAscend(attempts, origin);
    forall k | 0 <= k < |d|
      ensures out[k] == (d[k].0, out[k].1) && out[k].1 == Total(d[..k + 1])
    {
      CountsAreLiveSessions(attempts, origin, out, k, out[k].0);
      DeltasCount(attempts, origin, d[k].0);
      SumIsTotalOfPrefix(d, k + 1, d[k].0);
    }
    MomentIsWork(attempts, origin);
    AttemptsAreTheWork(tasks);
    if d == [] {
      EmptyHasNoArea(out);
    } else {
      var n := |d|;
      CountsAreLiveSessions(attempts, origin, out, n - 1, out[n - 1].0);
      AreaByParts(d, out, n);
      assert d[..n] == d && out[..n] == out;
    }
  }

  lemma EmptyHasNoArea(out: seq<(Secs, nat)>)
    requires out == []
    ensures Area(out) == 0 && Moment([]) == 0
  {
  }
}
