// The project repository as the Integrator uses it: the integration branch here and at the remote.
// Any operation may fail; others may push to the remote at any time, nobody else moves the local branch.
module Repo {
  import opened Ids

  datatype RepoError = Conflict | NotFastForward | Rejected | Unavailable

  datatype RemoteSync = UpToDate | FastForwarded(to: Sha) | Diverged(local: Sha, remote: Sha)

  datatype Result<+V> = Ok(value: V) | Err(error: RepoError)

  /** What was done to the integration branch, for the record. */
  datatype Move = Synced(to: Sha) | Forwarded(to: Sha) | Pushed(head: Sha) | PushFailed | RolledBack(to: Sha)
      | RollbackFailed

  /** What went wrong, for the record. A rebase may also find a conflict. */
  datatype Trouble = NoWorktree | NotRemoved | NotSynced | NotRebased | HadConflict | NoHead | NotForwarded | NotPushed

  class Worktree {
    var head: Sha

    constructor (at: Sha)
      ensures head == at
    {
      head := at;
    }
  }

  class Repository {
    /** The integration branch: the local tip and the remote's. */
    var local: Sha
    var remote: Sha
    ghost var moves: seq<Move>
    ghost var troubles: seq<Trouble>

    constructor (local: Sha, remote: Sha)
      ensures this.local == local && this.remote == remote && moves == [] && troubles == []
    {
      this.local, this.remote, moves, troubles := local, remote, [], [];
    }

    method WorktreeAdd(head: Sha) returns (worktree: Worktree?)
      modifies this`troubles
      ensures worktree != null ==> fresh(worktree) && worktree.head == head
      ensures troubles == if worktree == null then old(troubles) + [NoWorktree] else old(troubles)
    {
      if * {
        troubles := troubles + [NoWorktree];
        return null;
      }
      worktree := new Worktree(head);
    }

    method WorktreeRemove(worktree: Worktree) returns (ok: bool)
      modifies this`troubles
      ensures troubles == if ok then old(troubles) else old(troubles) + [NotRemoved]
    {
      ok := *;
      if !ok {
        troubles := troubles + [NotRemoved];
      }
    }

    /** Fetch, and fast-forward the local branch when it is strictly behind. */
    method SyncBranch() returns (r: Result<RemoteSync>)
      modifies this
      ensures remote == old(remote)
      ensures r.Err? || !r.value.FastForwarded? ==> local == old(local) && moves == old(moves)
      ensures r == Ok(UpToDate) ==> Ancestor(remote, local)
      ensures r.Ok? && r.value.FastForwarded? ==>
                Ancestor(old(local), remote) && local == remote == r.value.to && moves == old(moves) + [Synced(remote)]
      ensures r.Ok? && r.value.Diverged? ==>
                && r.value == Diverged(local, remote)
                && !Ancestor(local, remote) && !Ancestor(remote, local)
      ensures r.Err? ==> !r.error.Conflict?
      ensures troubles == if r.Err? then old(troubles) + [NotSynced] else old(troubles)
    {
      if * {
        troubles := troubles + [NotSynced];
        return Err(Unavailable);
      }
      if Ancestor(remote, local) {
        return Ok(UpToDate);
      }
      if Ancestor(local, remote) {
        local, moves := remote, moves + [Synced(remote)];
        return Ok(FastForwarded(remote));
      }
      return Ok(Diverged(local, remote));
    }

    /** Replay the worktree's patches on top of the local branch. */
    method Rebase(worktree: Worktree) returns (r: Result<Sha>)
      modifies worktree, this`troubles
      ensures r.Ok? ==> Ancestor(local, r.value) && worktree.head == r.value
      ensures r.Err? ==> worktree.head == old(worktree.head)
      ensures troubles ==
                if r.Ok? then old(troubles)
                else old(troubles) + [if r.error.Conflict? then HadConflict else NotRebased]
    {
      if * {
        troubles := troubles + [HadConflict];
        return Err(Conflict);
      }
      if * {
        troubles := troubles + [NotRebased];
        return Err(Unavailable);
      }
      var replayed: seq<Patch> := *;
      worktree.head := local + replayed;
      return Ok(worktree.head);
    }

    method HeadOf() returns (r: Result<Sha>)
      modifies this`troubles
      ensures r.Ok? ==> r.value == local
      ensures troubles == if r.Err? then old(troubles) + [NoHead] else old(troubles)
    {
      if * {
        troubles := troubles + [NoHead];
        return Err(Unavailable);
      }
      r := Ok(local);
    }

    method FastForward(to: Sha) returns (r: Result<()>)
      modifies this
      ensures remote == old(remote)
      ensures r.Ok? ==> Ancestor(old(local), to) && local == to && moves == old(moves) + [Forwarded(to)]
      ensures r.Err? ==> local == old(local) && moves == old(moves)
      ensures !Ancestor(old(local), to) ==> r.Err?
      ensures troubles == if r.Err? then old(troubles) + [NotForwarded] else old(troubles)
    {
      if !Ancestor(local, to) {
        troubles := troubles + [NotForwarded];
        return Err(NotFastForward);
      }
      if * {
        troubles := troubles + [NotForwarded];
        return Err(Unavailable);
      }
      local, moves := to, moves + [Forwarded(to)];
      return Ok(());
    }

    /** Publish the local branch. Someone else's push may come first; the remote then refuses unless
        ours still fast-forwards it. */
    method Push() returns (r: Result<()>)
      modifies this
      ensures local == old(local)
      ensures r.Ok? ==> remote == local && moves == old(moves) + [Pushed(local)]
      ensures r.Err? ==> Ancestor(old(remote), remote) && moves == old(moves) + [PushFailed]
      ensures troubles == if r.Err? then old(troubles) + [NotPushed] else old(troubles)
    {
      var others: seq<Patch> := *;
      remote := remote + others;
      if !Ancestor(remote, local) {
        moves, troubles := moves + [PushFailed], troubles + [NotPushed];
        return Err(Rejected);
      }
      if * {
        moves, troubles := moves + [PushFailed], troubles + [NotPushed];
        return Err(Unavailable);
      }
      remote, moves := local, moves + [Pushed(local)];
      return Ok(());
    }

    /** Compensation: compare-and-swap the local branch back from `from` to `to`. */
    method Rollback(from: Sha, to: Sha) returns (r: Result<()>)
      modifies this
      ensures remote == old(remote)
      ensures r.Ok? ==> old(local) == from && local == to && moves == old(moves) + [RolledBack(to)]
      ensures r.Err? ==> local == old(local) && moves == old(moves) + [RollbackFailed]
      ensures troubles == old(troubles)
    {
      if local != from {
        moves := moves + [RollbackFailed];
        return Err(Rejected);
      }
      if * {
        moves := moves + [RollbackFailed];
        return Err(Unavailable);
      }
      local, moves := to, moves + [RolledBack(to)];
      return Ok(());
    }
  }
}
