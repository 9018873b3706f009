// The Integrator: land verified branches one at a time (rebase, checks, fast-forward, push, and a
// rollback when the push fails), then one pass over all merge beads.
module Integrator {
  import opened Ids
  import opened Ledger
  import R = Repo
  import T = Task
  import V = Verifier
  import Transition

  datatype Config = Config(hasRemote: bool, checks: seq<string>)

  datatype Rejection =
    | Conflict
    | Diverged(local: Sha, remote: Sha)
    | CheckFailed(command: string, result: V.RunResult)

  datatype LandResult = Landed(head: Sha) | Refused(rejection: Rejection) | Infra | NoRunner

  /** Every check ran in order on `head` and succeeded. */
  ghost predicate AllChecksPassed(cfg: Config, head: Sha, before: seq<V.Call>, after: seq<V.Call>) {
    exists results: seq<V.RunResult> ::
      && |results| == |cfg.checks| && (forall r :: r in results ==> V.Succeeded(r))
      && after == before + V.Calls(head, cfg.checks, results)
  }

  /** Nothing was published since `before`. */
  ghost predicate NothingPushed(before: seq<R.Move>, after: seq<R.Move>) {
    before <= after && forall i :: |before| <= i < |after| ==> !after[i].Pushed?
  }

  /** A landing ends short only for a reason: a conflict that the rebase found, a check that failed, one that could not
      be spawned, or trouble with the repository. */
  ghost predicate WhyNot(cfg: Config, result: LandResult, before: seq<R.Trouble>, after: seq<R.Trouble>,
                         ran: seq<V.Call>, runs: seq<V.Call>) {
    match result
    case Landed(_) => after == before
    case Refused(Conflict) => after == before + [R.HadConflict]
    case Refused(Diverged(_, _)) => cfg.hasRemote && after == before
    case Refused(CheckFailed(_, outcome)) => after == before && ran < runs && outcome.Exited?
    case Infra => |after| == |before| + 1 && before <= after && !after[|before|].HadConflict?
    case NoRunner => after == before && ran < runs && runs[|runs| - 1].result.NotSpawned?
  }

  /** Rebase, checks, fast-forward, push. `base` is main after the initial sync: the remote's tip when
      the local branch was behind it, the local tip otherwise. A landing that succeeds leaves main, and
      the remote if there is one, at the checked head. Any other end publishes nothing and leaves main
      at `base`, unless the push and the rollback both failed: then main is left at the checked head. A
      landing that starts with main ahead of the remote keeps that lead, and publishes it if it succeeds. */
  method Land(repo: R.Repository, runner: V.Runner, cfg: Config, worktree: R.Worktree)
      returns (result: LandResult, ghost base: Sha)
    modifies repo, runner, worktree
    ensures base == old(repo.local)
         || (cfg.hasRemote && base == old(repo.remote) && Ancestor(old(repo.local), base))
    ensures cfg.hasRemote && result.Landed? && Ancestor(old(repo.local), old(repo.remote)) ==> base == old(repo.remote)
    ensures Ancestor(old(repo.remote), old(repo.local)) ==> base == old(repo.local)
    ensures result.Landed? ==>
              && Ancestor(base, result.head) && repo.local == result.head && worktree.head == result.head
              && AllChecksPassed(cfg, result.head, old(runner.log), runner.log)
              && repo.remote == (if cfg.hasRemote then result.head else old(repo.remote))
              && Ancestor(old(repo.local), result.head)
    ensures !result.Landed? ==>
              && NothingPushed(old(repo.moves), repo.moves) && Ancestor(old(repo.remote), repo.remote)
              && (repo.local == base ||
                  (result.Infra? && Stranded(cfg, repo.local, base, repo.moves)
                   && AllChecksPassed(cfg, repo.local, old(runner.log), runner.log)))
    ensures WhyNot(cfg, result, old(repo.troubles), repo.troubles, old(runner.log), runner.log)
    ensures result.Refused? && result.rejection.Diverged? ==>
              && !Ancestor(old(repo.local), old(repo.remote)) && !Ancestor(old(repo.remote), old(repo.local))
              && result.rejection == Diverged(old(repo.local), old(repo.remote))
    ensures result.Refused? && result.rejection.CheckFailed? ==>
              && EndedAt(cfg, worktree.head, old(runner.log), runner.log,
                         result.rejection.command, result.rejection.result)
              && Ancestor(base, worktree.head)
    ensures result.Refused? && !result.rejection.CheckFailed? ==> runner.log == old(runner.log)
  {
    hide AllChecksPassed, EndedAt, Stranded;
    base := repo.local;
    if cfg.hasRemote {
      var synced := repo.SyncBranch();
      if synced.Err? {
        return Infra, base;
      }
      if synced.value.Diverged? {
        return Refused(Diverged(synced.value.local, synced.value.remote)), base;
      }
      base := repo.local;
    }
    var rebased := repo.Rebase(worktree);
    if rebased.Err? {
      return if rebased.error.Conflict? then Refused(Conflict) else Infra, base;
    }
    var head := rebased.value;
    var failed := RunChecks(runner, cfg, head);
    if failed.Some? && failed.value.1.NotSpawned? {
      return NoRunner, base;
    }
    if failed.Some? {
      return Refused(CheckFailed(failed.value.0, failed.value.1)), base;
    }
    var published := Publish(repo, cfg, head);
    result := if published then Landed(head) else Infra;
  }

  /** The two steps with a side effect: fast-forward main, push it; when the push fails, move main back
      by compare-and-swap so that a retry starts from a clean state. */
  method Publish(repo: R.Repository, cfg: Config, head: Sha) returns (published: bool)
    requires Ancestor(repo.local, head)
    modifies repo
    ensures published ==> repo.local == head && repo.remote == if cfg.hasRemote then head else old(repo.remote)
    ensures published ==> repo.troubles == old(repo.troubles)
    ensures !published ==>
              && |repo.troubles| == |old(repo.troubles)| + 1 && old(repo.troubles) <= repo.troubles
              && !repo.troubles[|old(repo.troubles)|].HadConflict?
    ensures !published ==>
              && NothingPushed(old(repo.moves), repo.moves) && Ancestor(old(repo.remote), repo.remote)
              && (repo.local == old(repo.local) ||
                  (repo.local == head && Stranded(cfg, head, old(repo.local), repo.moves)))
  {
    var before := repo.HeadOf();
    if before.Err? {
      return false;
    }
    var forwarded := repo.FastForward(head);
    if forwarded.Err? {
      return false;
    }
    if cfg.hasRemote {
      var pushed := repo.Push();
      if pushed.Err? {
        var rolled := repo.Rollback(head, before.value);
        return false;
      }
    }
    return true;
  }

  /** The checks ran in order on `head` until one failed, which was `command` with `result`. */
  ghost predicate EndedAt(cfg: Config, head: Sha, before: seq<V.Call>, after: seq<V.Call>, command: string,
                          result: V.RunResult) {
    exists results: seq<V.RunResult> ::
      && V.IsRunOf(cfg.checks, results) && results != []
      && results[|results| - 1] == result && !V.Succeeded(result) && cfg.checks[|results| - 1] == command
      && after == before + V.Calls(head, cfg.checks, results)
  }

  /** Main was left ahead of where the landing started: the push failed, then the rollback failed. */
  ghost predicate Stranded(cfg: Config, main: Sha, base: Sha, moves: seq<R.Move>) {
    && cfg.hasRemote && Ancestor(base, main)
    && |moves| >= 3
    && moves[|moves| - 3..] == [R.Forwarded(main), R.PushFailed, R.RollbackFailed]
  }

  /** Run the checks in order until one fails; a check that cannot be spawned ends the landing too. */
  method RunChecks(runner: V.Runner, cfg: Config, head: Sha) returns (failed: Option<(string, V.RunResult)>)
    modifies runner
    ensures failed.None? ==> AllChecksPassed(cfg, head, old(runner.log), runner.log)
    ensures failed.Some? ==> EndedAt(cfg, head, old(runner.log), runner.log, failed.value.0, failed.value.1)
    ensures failed.Some? ==>
              old(runner.log) < runner.log && runner.log[|runner.log| - 1].result == failed.value.1
              && !V.Succeeded(failed.value.1)
  {
    ghost var results := [];
    for i := 0 to |cfg.checks|
      invariant |results| == i && forall r :: r in results ==> V.Succeeded(r)
      invariant runner.log == old(runner.log) + V.Calls(head, cfg.checks, results)
    {
      var r := runner.Run(head, cfg.checks[i]);
      ghost var done := V.Calls(head, cfg.checks, results);
      results := results + [r];
      assert V.Calls(head, cfg.checks, results) == done + [V.Call(head, cfg.checks[i], r)];
      if !V.Succeeded(r) {
        assert V.IsRunOf(cfg.checks, results);
        return Some((cfg.checks[i], r));
      }
    }
    return None;
  }

  // ---- one pass over the merge beads -----------------------------------------------------------------------

  datatype Report = Report(landed: nat, failed: nat, skipped: nat, errors: nat)

  /** What became of one attempt to land, as far as the ledger is concerned. */
  datatype Attempt = Lands(head: Sha) | Rejects(detail: string) | Fails

  datatype Tally = DidLand | DidReject | DidSkip | DidError

  function Counted(r: Report, t: Tally): Report {
    match t
    case DidLand => r.(landed := r.landed + 1)
    case DidReject => r.(failed := r.failed + 1)
    case DidSkip => r.(skipped := r.skipped + 1)
    case DidError => r.(errors := r.errors + 1)
  }

  /** The ledger, the writes it may still perform, the counters so far. */
  datatype Pass = Pass(store: Store, left: nat, report: Report)

  function Ended(p: Pass, r: Ran, t: Tally): Pass {
    Pass(r.store, r.left, Counted(p.report, if r.ended.Done? then t else DidError))
  }

  /** Record the result on the task, then close the merge bead. */
  function Recorded(s: Store, mb: BeadId, task: BeadId, event: T.Event, allowed: nat): Ran {
    var applied := Transition.Applied(s, task, event, allowed);
    if applied.ended.Done? then PerformOne(applied.store, Close(mb), applied.left) else applied
  }

  /** The task of the merge bead still waits for exactly this landing. */
  predicate StartsLanding(s: Store, meta: MergeMeta) {
    && s.IsTask(meta.task) && !s.beads[meta.task].status.Closed?
    && s.StateOf(meta.task) == T.Mergeable(meta.branch, meta.head)
  }

  /** One merge bead: close it when it is stale, otherwise record what the landing did. */
  function OneDone(p: Pass, mb: BeadId, meta: MergeMeta, attempt: Attempt): Pass {
    var s := p.store;
    if meta.task !in s.beads then p.(report := Counted(p.report, DidError))
    else if s.beads[meta.task].status.Closed? then Ended(p, PerformOne(s, Close(mb), p.left), DidSkip)
    else if !s.IsTask(meta.task) then p.(report := Counted(p.report, DidError))
    else if s.StateOf(meta.task) != T.Mergeable(meta.branch, meta.head)
    then Ended(p, PerformOne(s, Close(mb), p.left), DidSkip)
    else
      match attempt
      case Lands(head) => Ended(p, Recorded(s, mb, meta.task, T.Merged(head), p.left), DidLand)
      case Rejects(detail) => Ended(p, Recorded(s, mb, meta.task, T.MergeFailed(detail), p.left), DidReject)
      case Fails => p.(report := Counted(p.report, DidError))
  }

  /** The pass over `listed`, the merge beads of `seen` in listing order; `attempts` says what landing
      each of them would do. */
  function PassOver(p: Pass, seen: Store, listed: seq<BeadId>, attempts: seq<Attempt>): Pass
    requires |attempts| == |listed|
    requires forall id :: id in listed ==> id in seen.beads
    decreases |listed|
  {
    if listed == [] then p
    else
      var bead := seen.beads[listed[0]];
      var next :=
        if bead.merge.None? then p.(report := Counted(p.report, DidSkip))
        else OneDone(p, listed[0], bead.merge.value, attempts[0]);
      PassOver(next, seen, listed[1..], attempts[1..])
  }

  const NO_REPORT := Report(0, 0, 0, 0)

  /** A whole pass over the merge beads of `s`. */
  function Integrated(s: Store, attempts: seq<Attempt>, allowed: nat): Pass
    requires s.Valid() && |attempts| == |Listing(s, Merge)|
  {
    ListingIsExact(s, Merge);
    PassOver(Pass(s, allowed, NO_REPORT), s, Listing(s, Merge), attempts)
  }

  /** Where a landing that ended with `result` left main, from `base` on: at the checked head when it landed; else
      back at `base`, or, with push and rollback both failed, at the checked head again. */
  ghost predicate LeftMain(cfg: Config, result: LandResult, base: Sha, local: Sha, moves: seq<R.Move>,
                           before: seq<V.Call>, after: seq<V.Call>) {
    match result
    case Landed(head) => local == head && Ancestor(base, head) && AllChecksPassed(cfg, head, before, after)
    case _ =>
      || local == base
      || (result.Infra? && Stranded(cfg, local, base, moves) && AllChecksPassed(cfg, local, before, after))
  }

  /** What the ledger is told of a landing: nothing when the trouble is the infrastructure's. */
  predicate Tells(result: LandResult, attempt: Attempt) {
    match attempt
    case Lands(head) => result == Landed(head)
    case Rejects(_) => result.Refused?
    case Fails => true
  }

  /** The ledger is told nothing only when there was trouble: no checkout, one that could not be removed, or a landing
      that the infrastructure ended. */
  ghost predicate WhyFails(landing: Option<LandResult>, before: seq<R.Trouble>, after: seq<R.Trouble>) {
    match landing
    case None => after == before + [R.NoWorktree]
    case Some(result) => result.Infra? || result.NoRunner? || (|after| > |before| && after[|after| - 1] == R.NotRemoved)
  }

  /** Check the head out, land it, remove the checkout. `landing` is how the landing ended, if one was begun, and
      `told` what the ledger is to hear of it: nothing when the trouble is ours. */
  method LandHead(repo: R.Repository, runner: V.Runner, cfg: Config, head: Sha)
      returns (told: Option<LandResult>, ghost landing: Option<LandResult>, ghost base: Sha)
    modifies repo, runner
    ensures told.Some? ==> landing == told && (told.value.Landed? || told.value.Refused?)
    ensures told.None? ==> WhyFails(landing, old(repo.troubles), repo.troubles)
    ensures landing.Some? && !landing.value.Landed? && !landing.value.Refused? ==>
              exists troubles :: troubles <= repo.troubles
                                 && WhyNot(cfg, landing.value, old(repo.troubles), troubles, old(runner.log),
                                           runner.log)
    ensures landing.None? ==>
              && base == repo.local == old(repo.local) && repo.remote == old(repo.remote)
              && repo.moves == old(repo.moves) && runner.log == old(runner.log)
    ensures base == old(repo.local) || (cfg.hasRemote && base == old(repo.remote) && Ancestor(old(repo.local), base))
    ensures landing.Some? ==>
              && Ancestor(base, repo.local)
              && LeftMain(cfg, landing.value, base, repo.local, repo.moves, old(runner.log), runner.log)
              && (if landing.value.Landed?
                  then repo.local == landing.value.head
                       && repo.remote == if cfg.hasRemote then repo.local else old(repo.remote)
                  else NothingPushed(old(repo.moves), repo.moves) && Ancestor(old(repo.remote), repo.remote))
  {
    told, landing, base := None, None, repo.local;
    var worktree := repo.WorktreeAdd(head);
    if worktree == null {
      return;
    }
    var result;
    result, base := Land(repo, runner, cfg, worktree);
    landing := Some(result);
    var removed := repo.WorktreeRemove(worktree);
    if removed && !result.Infra? && !result.NoRunner? {
      told := Some(result);
    }
  }

  /** One merge bead. `landing` is how the landing ended, if one was begun, and `base` where main was after its
      sync. Main and the remote move in that landing alone, as far as its own end says, whether or not the ledger
      comes to hear of it: a checkout that cannot be removed and a failed write leave a landed task mergeable. */
  method IntegrateOne(store: BeadStore, repo: R.Repository, runner: V.Runner, cfg: Config, mb: BeadId, meta: MergeMeta,
                      ghost p: Pass)
      returns (tally: Tally, ghost attempt: Attempt, ghost landing: Option<LandResult>, ghost base: Sha)
    requires store.Valid() && p.store == store.View() && p.left == store.writesAllowed
    modifies store, repo, runner
    ensures store.Valid()
    ensures Pass(store.View(), store.writesAllowed, Counted(p.report, tally)) == OneDone(p, mb, meta, attempt)
    ensures attempt.Lands? ==> repo.local == attempt.head && (cfg.hasRemote ==> repo.remote == attempt.head)
    ensures Ancestor(old(repo.local), repo.local)
    ensures !StartsLanding(old(store.View()), meta) ==> landing.None?
    ensures StartsLanding(old(store.View()), meta) && attempt.Fails? ==>
              WhyFails(landing, old(repo.troubles), repo.troubles)
    ensures landing.Some? && !landing.value.Landed? && !landing.value.Refused? ==>
              exists troubles :: troubles <= repo.troubles
                                 && WhyNot(cfg, landing.value, old(repo.troubles), troubles, old(runner.log),
                                           runner.log)
    ensures tally.DidLand? ==> attempt.Lands?
    ensures tally.DidReject? ==> attempt.Rejects? && NothingPushed(old(repo.moves), repo.moves)
    ensures landing.None? ==>
              && attempt.Fails? && base == repo.local == old(repo.local) && repo.remote == old(repo.remote)
              && repo.moves == old(repo.moves) && runner.log == old(runner.log)
    ensures base == old(repo.local) || (cfg.hasRemote && base == old(repo.remote) && Ancestor(old(repo.local), base))
    ensures landing.Some? ==>
              && Tells(landing.value, attempt) && Ancestor(base, repo.local)
              && LeftMain(cfg, landing.value, base, repo.local, repo.moves, old(runner.log), runner.log)
              && (if landing.value.Landed?
                  then repo.remote == if cfg.hasRemote then repo.local else old(repo.remote)
                  else NothingPushed(old(repo.moves), repo.moves) && Ancestor(old(repo.remote), repo.remote))
  {
    hide WhyNot, LeftMain, WhyFails, T.Task.Apply, Transition.Applied;
    attempt, landing, base := Fails, None, repo.local;
    var bead := store.Show(meta.task);
    if bead.None? {
      return DidError, Fails, None, base;
    }
    if bead.value.status.Closed? {
      var ended := store.Do(Close(mb));
      return if ended.Done? then DidSkip else DidError, Fails, None, base;
    }
    var task, _ := Transition.LoadTask(store, meta.task);
    if task.None? {
      return DidError, Fails, None, base;
    }
    if task.value.state != T.Mergeable(meta.branch, meta.head) {
      var ended := store.Do(Close(mb));
      return if ended.Done? then DidSkip else DidError, Fails, None, base;
    }
    var told;
    told, landing, base := LandHead(repo, runner, cfg, meta.head);
    if told.None? {
      return DidError, Fails, landing, base;
    }
    var result, detail: string := told.value, *;
    var event := if result.Landed? then T.Merged(result.head) else T.MergeFailed(detail);
    attempt := if result.Landed? then Lands(result.head) else Rejects(detail);
    var ended, _ := Transition.ApplyEvent(store, meta.task, event);
    if ended.Done? {
      ended := store.Do(Close(mb));
    }
    tally := if ended.Failed? then DidError else if result.Landed? then DidLand else DidReject;
  }

  method IntegrateOnce(store: BeadStore, repo: R.Repository, runner: V.Runner, cfg: Config)
      returns (report: Report, ghost attempts: seq<Attempt>)
    requires store.Valid()
    modifies store, repo, runner
    ensures store.Valid()
    ensures |attempts| == |Listing(old(store.View()), Merge)|
    ensures Pass(store.View(), store.writesAllowed, report)
         == Integrated(old(store.View()), attempts, old(store.writesAllowed))
  {
    ghost var seen := store.View();
    ghost var ids := Listing(seen, Merge);
    ListingIsExact(seen, Merge);
    report, attempts := NO_REPORT, [];
    var merges := store.ListActive(Merge);
    for i := 0 to |merges|
      invariant store.Valid() && |attempts| == i
      invariant forall id :: id in ids ==> id in seen.beads
      invariant Pass(store.View(), store.writesAllowed, report)
             == PassOver(Pass(seen, old(store.writesAllowed), NO_REPORT), seen, ids[..i], attempts)
    {
      var (id, bead) := merges[i];
      ghost var p := Pass(store.View(), store.writesAllowed, report);
      ghost var attempt := Fails;
      if bead.merge.None? {
        report := Counted(report, DidSkip);
      } else {
        var tally, tried, _, _ := IntegrateOne(store, repo, runner, cfg, id, bead.merge.value, p);
        report, attempt := Counted(report, tally), tried;
      }
      PassSnoc(Pass(seen, old(store.writesAllowed), NO_REPORT), seen, ids[..i], attempts, ids[i], attempt);
      attempts := attempts + [attempt];
      assert ids[..i + 1] == ids[..i] + [ids[i]];
    }
    assert ids[..|merges|] == ids;
  }

  lemma {:induction false} PassSnoc(p: Pass, seen: Store, listed: seq<BeadId>, attempts: seq<Attempt>, id: BeadId,
                                    attempt: Attempt)
    requires |attempts| == |listed| && id in seen.beads
    requires forall x :: x in listed ==> x in seen.beads
    ensures PassOver(p, seen, listed + [id], attempts + [attempt])
         == PassOver(PassOver(p, seen, listed, attempts), seen, [id], [attempt])
    decreases |listed|
  {
    hide OneDone;
    if listed == [] {
      assert listed + [id] == [id] && attempts + [attempt] == [attempt];
    } else {
      assert (listed + [id])[1..] == listed[1..] + [id] && (attempts + [attempt])[1..] == attempts[1..] + [attempt];
      var bead := seen.beads[listed[0]];
      var next :=
        if bead.merge.None? then p.(report := Counted(p.report, DidSkip))
        else OneDone(p, listed[0], bead.merge.value, attempts[0]);
      PassSnoc(next, seen, listed[1..], attempts[1..], id, attempt);
    }
  }

  /** What each merge bead adds to which counter: a landing that was recorded to its end counts as landed, a rejection
      as failed, a stale bead that was closed as skipped, anything else as an error; nothing is counted twice. */
  lemma OneDoneCounts(p: Pass, mb: BeadId, meta: MergeMeta, attempt: Attempt)
    ensures var s, was, now := p.store, p.report, OneDone(p, mb, meta, attempt).report;
            if StartsLanding(s, meta)
            then
              if attempt.Lands? && Recorded(s, mb, meta.task, T.Merged(attempt.head), p.left).ended.Done?
              then now == Report(was.landed + 1, was.failed, was.skipped, was.errors)
              else if attempt.Rejects? && Recorded(s, mb, meta.task, T.MergeFailed(attempt.detail), p.left).ended.Done?
              then now == Report(was.landed, was.failed + 1, was.skipped, was.errors)
              else now == Report(was.landed, was.failed, was.skipped, was.errors + 1)
            else if (s.IsClosed(meta.task) || s.IsTask(meta.task)) && p.left > 0 && mb in s.beads
            then now == Report(was.landed, was.failed, was.skipped + 1, was.errors)
            else now == Report(was.landed, was.failed, was.skipped, was.errors + 1)
  {
    hide Transition.Applied;
  }

  function Total(r: Report): nat {
    r.landed + r.failed + r.skipped + r.errors
  }

  /** Every listed merge bead is counted once. */
  lemma {:induction false} PassCountsEachBead(p: Pass, seen: Store, listed: seq<BeadId>, attempts: seq<Attempt>)
    requires |attempts| == |listed| && forall x :: x in listed ==> x in seen.beads
    ensures Total(PassOver(p, seen, listed, attempts).report) == Total(p.report) + |listed|
    decreases |listed|
  {
    hide Recorded;
    if listed != [] {
      var bead := seen.beads[listed[0]];
      var next :=
        if bead.merge.None? then p.(report := Counted(p.report, DidSkip))
        else OneDone(p, listed[0], bead.merge.value, attempts[0]);
      PassCountsEachBead(next, seen, listed[1..], attempts[1..]);
    }
  }
}
