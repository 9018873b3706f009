// The beads ledger: its contents as a value, its writes, and the store object the roles share.
// The store may die: it performs a given number of writes and fails every one after them.
module Ledger {
  import opened Ids
  import opened Time
  import opened Budget
  import T = Task

  datatype Option<+V> = None | Some(value: V)

  datatype Kind = Epic | Task | Verify | Merge | Question | Incident | Reference | PlanRequest | Contract

  datatype Status = Open | InProgress | Blocked | Deferred | Closed | Pinned | Hooked

  /** What the factory keeps on a task bead. */
  datatype Meta = Meta(
    verifyBead: BeadId,
    base: Sha,
    budget: Limits,
    usage: Usage,
    leaseExpiries: Attempts,
    blockedReleases: Attempts,
    state: T.State) {

    function IntoTask(id: BeadId): T.Task {
      T.Task(id, verifyBead, base, budget, usage, leaseExpiries, blockedReleases, state)
    }
  }

  function MetaOf(t: T.Task): Meta {
    Meta(t.verifyBead, t.base, t.budget, t.usage, t.leaseExpiries, t.blockedReleases, t.state)
  }

  /** What is stored of a task is the task, field by field, both ways. */
  lemma MetaIsTheTask(t: T.Task, m: Meta, id: BeadId)
    ensures MetaOf(t).IntoTask(t.id) == t && MetaOf(m.IntoTask(id)) == m
    ensures var task := m.IntoTask(id);
            && task.id == id && task.verifyBead == m.verifyBead && task.base == m.base && task.budget == m.budget
            && task.usage == m.usage && task.leaseExpiries == m.leaseExpiries
            && task.blockedReleases == m.blockedReleases && task.state == m.state
  {
  }

  /** The commands that prove a task done: there is at least one. */
  type Commands = c: seq<string> | c != [] witness [""]

  datatype VerifyMeta = VerifyMeta(task: BeadId, commands: Commands, timeout: Duration)

  datatype MergeMeta = MergeMeta(task: BeadId, branch: Branch, head: Sha)

  datatype Bead = Bead(
    kind: Option<Kind>,
    status: Status,
    title: string,
    parent: Option<BeadId>,
    meta: Option<Meta>,
    verify: Option<VerifyMeta>,
    merge: Option<MergeMeta>,
    notes: Option<string>) {

    /** Neither closed nor deferred. */
    predicate Active() {
      !status.Closed? && !status.Deferred?
    }

    predicate IsMergeable() {
      kind == Some(Task) && meta.Some? && meta.value.state.Mergeable?
    }
  }

  datatype NewBead = NewBead(
    kind: Kind,
    title: string,
    parent: Option<BeadId>,
    needs: seq<BeadId>,
    meta: Option<Meta>,
    merge: Option<MergeMeta>) {

    function Created(): Bead {
      Bead(Some(kind), Open, title, parent, meta, None, merge, None)
    }
  }

  /** The whole ledger as a value: beads, `blocks` edges (dependent to blockers), the next free id. */
  datatype Store = Store(beads: map<BeadId, Bead>, needs: map<BeadId, seq<BeadId>>, next: BeadId) {
    ghost predicate Valid() {
      forall id :: id in beads ==> id < next
    }

    function NeedsOf(id: BeadId): seq<BeadId> {
      if id in needs then needs[id] else []
    }

    predicate IsClosed(id: BeadId) {
      id in beads && beads[id].status.Closed?
    }

    predicate IsActive(id: BeadId, kind: Kind) {
      id in beads && beads[id].kind == Some(kind) && beads[id].Active()
    }

    /** Claimable: active, and every blocker closed. */
    predicate IsReady(id: BeadId, kind: Kind) {
      IsActive(id, kind) && forall n :: n in NeedsOf(id) ==> IsClosed(n)
    }

    /** The stored state of a factory task. */
    predicate IsTask(id: BeadId) {
      id in beads && beads[id].kind == Some(Task) && beads[id].meta.Some?
    }

    function StateOf(id: BeadId): T.State
      requires IsTask(id)
    {
      beads[id].meta.value.state
    }

    function TaskOf(id: BeadId): T.Task
      requires IsTask(id)
    {
      beads[id].meta.value.IntoTask(id)
    }

    /** The task fields of a bead that has them, whatever its kind. */
    function TaskAt(id: BeadId): T.Task
      requires id in beads && beads[id].meta.Some?
    {
      beads[id].meta.value.IntoTask(id)
    }

    function With(id: BeadId, bead: Bead): Store {
      this.(beads := beads[id := bead])
    }
  }

  /** The active beads of `kind` among the first `n` ids, in listing order. */
  function ListUpTo(s: Store, kind: Kind, n: nat): seq<BeadId> {
    if n == 0 then []
    else ListUpTo(s, kind, n - 1) + if s.IsActive(n - 1, kind) then [n - 1] else []
  }

  function Listing(s: Store, kind: Kind): seq<BeadId> {
    ListUpTo(s, kind, s.next)
  }

  lemma {:induction false} ListUpToIsExact(s: Store, kind: Kind, n: nat)
    ensures forall id: BeadId :: id in ListUpTo(s, kind, n) <==> id < n && s.IsActive(id, kind)
    ensures forall i, j :: 0 <= i < j < |ListUpTo(s, kind, n)| ==>
              ListUpTo(s, kind, n)[i] < ListUpTo(s, kind, n)[j]
  {
    if n > 0 {
      ListUpToIsExact(s, kind, n - 1);
      var shorter := ListUpTo(s, kind, n - 1);
      assert forall i :: 0 <= i < |shorter| ==> shorter[i] in shorter;
    }
  }

  /** A listing names exactly the active beads of the kind, each once. */
  lemma ListingIsExact(s: Store, kind: Kind)
    requires s.Valid()
    ensures forall id: BeadId :: id in Listing(s, kind) <==> s.IsActive(id, kind)
    ensures forall id: BeadId :: id in Listing(s, kind) <==>
              id in s.beads && s.beads[id].kind == Some(kind) && !s.beads[id].status.Closed?
                  && !s.beads[id].status.Deferred?
    ensures forall i, j :: 0 <= i < j < |Listing(s, kind)| ==> Listing(s, kind)[i] < Listing(s, kind)[j]
  {
    ListUpToIsExact(s, kind, s.next);
  }

  /** The claimable beads of `kind` among the first `n` ids, in listing order. */
  function ReadyUpTo(s: Store, kind: Kind, n: nat): seq<BeadId> {
    if n == 0 then []
    else ReadyUpTo(s, kind, n - 1) + if s.IsReady(n - 1, kind) then [n - 1] else []
  }

  /** The direct children of `parent` among the first `n` ids, in listing order, whatever their status. */
  function ChildrenUpTo(s: Store, parent: BeadId, n: nat): seq<BeadId> {
    if n == 0 then []
    else ChildrenUpTo(s, parent, n - 1)
         + if n - 1 in s.beads && s.beads[n - 1].parent == Some(parent) then [n - 1] else []
  }

  function ChildrenOf(s: Store, parent: BeadId): seq<BeadId> {
    ChildrenUpTo(s, parent, s.next)
  }

  lemma {:induction false} ChildrenUpToIsExact(s: Store, parent: BeadId, n: nat)
    ensures forall id: BeadId :: id in ChildrenUpTo(s, parent, n) <==>
              id < n && id in s.beads && s.beads[id].parent == Some(parent)
    ensures forall i, j :: 0 <= i < j < |ChildrenUpTo(s, parent, n)| ==>
              ChildrenUpTo(s, parent, n)[i] < ChildrenUpTo(s, parent, n)[j]
  {
    if n > 0 {
      ChildrenUpToIsExact(s, parent, n - 1);
      var shorter := ChildrenUpTo(s, parent, n - 1);
      assert forall i :: 0 <= i < |shorter| ==> shorter[i] in shorter;
    }
  }

  /** The children of a bead are all beads that name it as their parent, whatever their status, each once. */
  lemma ChildrenAreExact(s: Store, parent: BeadId)
    requires s.Valid()
    ensures forall id: BeadId :: id in ChildrenOf(s, parent) <==> id in s.beads && s.beads[id].parent == Some(parent)
    ensures forall i, j :: 0 <= i < j < |ChildrenOf(s, parent)| ==> ChildrenOf(s, parent)[i] < ChildrenOf(s, parent)[j]
  {
    ChildrenUpToIsExact(s, parent, s.next);
  }

  // ---- writes ---------------------------------------------------------------------------------

  datatype Write =
    | SetMeta(id: BeadId, meta: Meta)
    | SetVerify(id: BeadId, verify: VerifyMeta)
    | AddNeeds(id: BeadId, blocker: BeadId)
    | Note(id: BeadId, text: string)
    | Unclaim(id: BeadId)
    | Close(id: BeadId)
    | Create(bead: NewBead)

  function AppendedNote(notes: Option<string>, text: string): string {
    match notes
    case None => text
    case Some(existing) => existing + "\n" + text
  }

  /** The store after a write; `None` when it names a bead that does not exist. */
  function Written(s: Store, w: Write): Option<Store> {
    match w
    case Create(bead) =>
      Some(Store(s.beads[s.next := bead.Created()], s.needs[s.next := bead.needs], s.next + 1))
    case AddNeeds(id, blocker) =>
      if id !in s.beads then None else Some(s.(needs := s.needs[id := s.NeedsOf(id) + [blocker]]))
    case SetMeta(id, meta) =>
      if id !in s.beads then None else Some(s.With(id, s.beads[id].(meta := Some(meta))))
    case SetVerify(id, verify) =>
      if id !in s.beads then None else Some(s.With(id, s.beads[id].(verify := Some(verify))))
    case Note(id, text) =>
      if id !in s.beads then None
      else Some(s.With(id, s.beads[id].(notes := Some(AppendedNote(s.beads[id].notes, text)))))
    case Unclaim(id) =>
      if id !in s.beads then None else Some(s.With(id, s.beads[id].(status := Open)))
    case Close(id) =>
      if id !in s.beads then None else Some(s.With(id, s.beads[id].(status := Closed)))
  }

  datatype Failure = Unavailable | NotFound(id: BeadId) | NotATask(id: BeadId) | NoMeta(id: BeadId)
      | Illegal(why: T.Illegal)

  datatype Ended = Done | Failed(failure: Failure)

  /** What a sequence of writes left behind: the store, the writes it may still perform, and how it
      ended. */
  datatype Ran = Ran(store: Store, left: nat, ended: Ended)

  function PerformOne(s: Store, w: Write, allowed: nat): Ran {
    if allowed == 0 then Ran(s, 0, Failed(Unavailable))
    else
      match Written(s, w)
      case Some(next) => Ran(next, allowed - 1, Done)
      case None => Ran(s, allowed - 1, Failed(NotFound(if w.Create? then 0 else w.id)))
  }

  /** Perform writes in order, stopping at the first that fails. */
  function Perform(s: Store, writes: seq<Write>, allowed: nat): Ran
    decreases |writes|
  {
    if writes == [] then Ran(s, allowed, Done)
    else
      var first := PerformOne(s, writes[0], allowed);
      if first.ended.Done? then Perform(first.store, writes[1..], first.left) else first
  }

  lemma {:induction false} PerformAppend(s: Store, first: seq<Write>, second: seq<Write>, allowed: nat)
    ensures var r := Perform(s, first, allowed);
            Perform(s, first + second, allowed)
            == if r.ended.Done? then Perform(r.store, second, r.left) else r
    decreases |first|
  {
    if first == [] {
      assert first + second == second;
    } else {
      assert (first + second)[1..] == first[1..] + second;
      var one := PerformOne(s, first[0], allowed);
      if one.ended.Done? {
        PerformAppend(one.store, first[1..], second, one.left);
      }
    }
  }

  lemma PerformCons(s: Store, w: Write, rest: seq<Write>, allowed: nat)
    ensures var one := PerformOne(s, w, allowed);
            Perform(s, [w] + rest, allowed) == if one.ended.Done? then Perform(one.store, rest, one.left) else one
    ensures Perform(s, [w], allowed) == PerformOne(s, w, allowed)
  {
    assert ([w] + rest)[1..] == rest;
    assert [w][1..] == [];
  }

  // ---- the store object -------------------------------------------------------------------------

  class BeadStore {
    var beads: map<BeadId, Bead>
    var needs: map<BeadId, seq<BeadId>>
    var next: BeadId
    var writesAllowed: nat

    ghost predicate Valid()
      reads this
    {
      View().Valid()
    }

    ghost function View(): Store
      reads this
    {
      Store(beads, needs, next)
    }

    constructor (contents: Store, writes: nat)
      requires contents.Valid()
      ensures Valid() && View() == contents && writesAllowed == writes
    {
      beads := contents.beads;
      needs := contents.needs;
      next := contents.next;
      writesAllowed := writes;
    }

    method Show(id: BeadId) returns (bead: Option<Bead>)
      ensures bead == if id in View().beads then Some(View().beads[id]) else None
    {
      bead := if id in beads then Some(beads[id]) else None;
    }

    method ListActive(kind: Kind) returns (listed: seq<(BeadId, Bead)>)
      requires Valid()
      ensures |listed| == |Listing(View(), kind)|
      ensures forall i :: 0 <= i < |listed| ==>
                && listed[i].0 == Listing(View(), kind)[i]
                && listed[i].0 in View().beads && listed[i].1 == View().beads[listed[i].0]
    {
      listed := [];
      for i := 0 to next
        invariant |listed| == |ListUpTo(View(), kind, i)|
        invariant forall k :: 0 <= k < |listed| ==>
                    && listed[k].0 == ListUpTo(View(), kind, i)[k]
                    && listed[k].0 in beads && listed[k].1 == beads[listed[k].0]
      {
        if i in beads && beads[i].kind == Some(kind) && beads[i].Active() {
          listed := listed + [(i, beads[i])];
        }
      }
    }

    method Ready(kind: Kind) returns (listed: seq<(BeadId, Bead)>)
      requires Valid()
      ensures |listed| == |ReadyUpTo(View(), kind, View().next)|
      ensures forall i :: 0 <= i < |listed| ==>
                && listed[i].0 == ReadyUpTo(View(), kind, View().next)[i]
                && listed[i].0 in View().beads && listed[i].1 == View().beads[listed[i].0]
    {
      listed := [];
      var contents := Store(beads, needs, next);
      for i := 0 to next
        invariant |listed| == |ReadyUpTo(contents, kind, i)|
        invariant forall k :: 0 <= k < |listed| ==>
                    && listed[k].0 == ReadyUpTo(contents, kind, i)[k]
                    && listed[k].0 in beads && listed[k].1 == beads[listed[k].0]
      {
        if contents.IsReady(i, kind) {
          listed := listed + [(i, beads[i])];
        }
      }
    }

    method Children(parent: BeadId) returns (listed: seq<(BeadId, Bead)>)
      requires Valid()
      ensures |listed| == |ChildrenOf(View(), parent)|
      ensures forall i :: 0 <= i < |listed| ==>
                && listed[i].0 == ChildrenOf(View(), parent)[i]
                && listed[i].0 in View().beads && listed[i].1 == View().beads[listed[i].0]
    {
      listed := [];
      for i := 0 to next
        invariant |listed| == |ChildrenUpTo(View(), parent, i)|
        invariant forall k :: 0 <= k < |listed| ==>
                    && listed[k].0 == ChildrenUpTo(View(), parent, i)[k]
                    && listed[k].0 in beads && listed[k].1 == beads[listed[k].0]
      {
        if i in beads && beads[i].parent == Some(parent) {
          listed := listed + [(i, beads[i])];
        }
      }
    }

    /** One write, or `Unavailable` once the store has died. */
    method Do(w: Write) returns (ended: Ended)
      requires Valid()
      modifies this
      ensures Valid()
      ensures Ran(View(), writesAllowed, ended) == PerformOne(old(View()), w, old(writesAllowed))
    {
      if writesAllowed == 0 {
        return Failed(Unavailable);
      }
      writesAllowed := writesAllowed - 1;
      ended := Done;
      match w
      case Create(bead) =>
        beads, needs, next := beads[next := bead.Created()], needs[next := bead.needs], next + 1;
      case AddNeeds(id, blocker) =>
        if id !in beads { return Failed(NotFound(id)); }
        needs := needs[id := (if id in needs then needs[id] else []) + [blocker]];
      case SetMeta(id, meta) =>
        if id !in beads { return Failed(NotFound(id)); }
        beads := beads[id := beads[id].(meta := Some(meta))];
      case SetVerify(id, verify) =>
        if id !in beads { return Failed(NotFound(id)); }
        beads := beads[id := beads[id].(verify := Some(verify))];
      case Note(id, text) =>
        if id !in beads { return Failed(NotFound(id)); }
        beads := beads[id := beads[id].(notes := Some(AppendedNote(beads[id].notes, text)))];
      case Unclaim(id) =>
        if id !in beads { return Failed(NotFound(id)); }
        beads := beads[id := beads[id].(status := Open)];
      case Close(id) =>
        if id !in beads { return Failed(NotFound(id)); }
        beads := beads[id := beads[id].(status := Closed)];
    }

    /** Atomically take a bead: the winner finds it not in progress and leaves it in progress. */
    method TryClaim(id: BeadId) returns (won: bool, ended: Ended)
      requires Valid()
      modifies this
      ensures Valid()
      ensures old(writesAllowed) == 0 ==>
                ended == Failed(Unavailable) && !won && View() == old(View()) && writesAllowed == 0
      ensures old(writesAllowed) > 0 ==> writesAllowed == old(writesAllowed) - 1
      ensures old(writesAllowed) > 0 && id !in old(View()).beads ==>
                ended == Failed(NotFound(id)) && !won && View() == old(View())
      ensures old(writesAllowed) > 0 && id in old(View()).beads ==>
                ended.Done? && won == !old(View()).beads[id].status.InProgress?
                && View() == Claimed(old(View()), id)
                && View() == old(View()).With(id, old(View()).beads[id].(status := InProgress))
    {
      if writesAllowed == 0 {
        return false, Failed(Unavailable);
      }
      writesAllowed := writesAllowed - 1;
      if id !in beads {
        return false, Failed(NotFound(id));
      }
      won, ended := !beads[id].status.InProgress?, Done;
      if won {
        beads := beads[id := beads[id].(status := InProgress)];
      }
    }
  }

  /** The ledger's claim on `id`. */
  function Claimed(s: Store, id: BeadId): Store {
    if id in s.beads && !s.beads[id].status.InProgress?
    then s.With(id, s.beads[id].(status := InProgress)) else s
  }
}
