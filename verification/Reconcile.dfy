// internal/state/state.go: what a snapshot records about a path.
module Snapshots {
  import opened Documents

  // The content of a synchronized file. Files of a structured resource are
  // canonical printings of their document, so they are kept as the document.
  // SHA-256 is taken to be collision-free: the digest in a snapshot is
  // represented by the content it identifies.
  datatype Content = Bytes(data: string) | Structured(document: Document)

  // Repository paths to digests. Modification time and size are recorded by the
  // source but never compared.
  type Snapshot = map<string, Content>
}

// internal/syncengine/reconcile.go: three-way planning of one pass.
module Reconcile {
  import opened Strings
  import opened Snapshots

  datatype ActionType = PushToRemote | PullToLocal | DeleteRemote | DeleteLocal | RemoveRemote | MergeBoth

  datatype Action = Action(kind: ActionType, path: string)

  function SideChanged(base: Option<Content>, side: Option<Content>): bool {
    if base.Some? != side.Some? then true
    else base.Some? && base.value != side.value
  }

  function ResolveConflict(local: Option<Content>, remote: Option<Content>): Option<ActionType> {
    if local.Some? && remote.Some? then
      if local.value == remote.value then None else Some(MergeBoth)
    else if local.Some? || remote.Some? then Some(MergeBoth)
    else None
  }

  function Decide(base: Option<Content>, local: Option<Content>, remote: Option<Content>,
                  blocked: bool): Option<ActionType> {
    if blocked then
      if remote.Some? then Some(RemoveRemote) else None
    else
      var localChanged, remoteChanged := SideChanged(base, local), SideChanged(base, remote);
      if !localChanged && !remoteChanged then None
      else if localChanged && !remoteChanged then Some(if local.Some? then PushToRemote else DeleteRemote)
      else if remoteChanged && !localChanged then Some(if remote.Some? then PullToLocal else DeleteLocal)
      else ResolveConflict(local, remote)
  }

  function DecideAt(base: Snapshot, local: Snapshot, remote: Snapshot, blocked: set<string>,
                    path: string): Option<ActionType> {
    Decide(Lookup(base, path), Lookup(local, path), Lookup(remote, path), path in blocked)
  }

  function Planned(path: string, decision: Option<ActionType>): seq<Action> {
    if decision.Some? then [Action(decision.value, path)] else []
  }

  function PlanKeys(keys: seq<string>, base: Snapshot, local: Snapshot, remote: Snapshot,
                    blocked: set<string>): seq<Action> {
    if keys == [] then []
    else
      var path := keys[|keys| - 1];
      PlanKeys(keys[..|keys| - 1], base, local, remote, blocked)
          + Planned(path, DecideAt(base, local, remote, blocked, path))
  }

  // The plan of a pass: the decisions of all paths, in path order.
  ghost function Plan(base: Snapshot, local: Snapshot, remote: Snapshot, blocked: set<string>): seq<Action> {
    PlanKeys(Sorted(base.Keys + local.Keys + remote.Keys), base, local, remote, blocked)
  }

  predicate OrderedActions(actions: seq<Action>) {
    forall i, j :: 0 <= i < j < |actions| ==> Before(actions[i].path, actions[j].path)
  }

  // ---- The loops of the source ----

  method UnionKeys(base: Snapshot, local: Snapshot, remote: Snapshot) returns (out: seq<string>)
    ensures out == Sorted(base.Keys + local.Keys + remote.Keys)
  {
    var keys := base.Keys + local.Keys + remote.Keys;
    out := [];
    while keys != {}
      invariant Ascending(out)
      invariant forall key :: key in base.Keys + local.Keys + remote.Keys <==> key in keys || key in out
      invariant forall key :: key in keys ==> key !in out
      decreases keys
    {
      var key :| key in keys;
      out := Insert(out, key);
      keys := keys - {key};
    }
    AscendingUnique(out, Sorted(base.Keys + local.Keys + remote.Keys));
  }

  lemma PlanKeysNext(keys: seq<string>, i: nat, base: Snapshot, local: Snapshot, remote: Snapshot, blocked: set<string>)
    requires i < |keys|
    ensures PlanKeys(keys[..i + 1], base, local, remote, blocked)
         == PlanKeys(keys[..i], base, local, remote, blocked)
             + Planned(keys[i], DecideAt(base, local, remote, blocked, keys[i]))
  {
    assert keys[..i + 1][..i] == keys[..i];
  }

  // One turn of the planning loop.
  method PlanOne(path: string, b: Option<Content>, l: Option<Content>, r: Option<Content>, shielded: bool)
    returns (planned: seq<Action>)
    ensures planned == Planned(path, Decide(b, l, r, shielded))
  {
    if shielded {
      return if r.Some? then [Action(RemoveRemote, path)] else [];
    }
    var localChanged, remoteChanged := SideChanged(b, l), SideChanged(b, r);
    planned := [];
    if localChanged && !remoteChanged {
      planned := [Action(if l.Some? then PushToRemote else DeleteRemote, path)];
    } else if remoteChanged && !localChanged {
      planned := [Action(if r.Some? then PullToLocal else DeleteLocal, path)];
    } else if localChanged {
      var resolved := ResolveConflict(l, r);
      if resolved.Some? {
        planned := [Action(resolved.value, path)];
      }
    }
  }

  method ReconcileWithBlocked(base: Snapshot, local: Snapshot, remote: Snapshot, blocked: seq<string>)
    returns (actions: seq<Action>)
    ensures actions == Plan(base, local, remote, Elements(blocked))
  {
    var keys := UnionKeys(base, local, remote);
    var shielded := Elements(blocked);
    actions := [];
    for i := 0 to |keys|
      invariant actions == PlanKeys(keys[..i], base, local, remote, shielded)
    {
      var path := keys[i];
      var planned := PlanOne(path, Lookup(base, path), Lookup(local, path), Lookup(remote, path), path in shielded);
      PlanKeysNext(keys, i, base, local, remote, shielded);
      actions := actions + planned;
    }
    assert keys[..|keys|] == keys;
  }

  // ---- What a plan means ----

  lemma {:induction false} PlanKeysContains(keys: seq<string>, base: Snapshot, local: Snapshot, remote: Snapshot,
                                            blocked: set<string>)
    requires Ascending(keys)
    ensures OrderedActions(PlanKeys(keys, base, local, remote, blocked))
    ensures forall action :: action in PlanKeys(keys, base, local, remote, blocked) <==>
                             action.path in keys && DecideAt(base, local, remote, blocked, action.path)
                                 == Some(action.kind)
  {
    if keys != [] {
      var front, last := keys[..|keys| - 1], keys[|keys| - 1];
      PlanKeysContains(front, base, local, remote, blocked);
      assert forall key :: key in keys <==> key in front || key == last;
    }
  }

  // One action per path at most, in path order, and exactly the decided ones.
  lemma PlanContains(base: Snapshot, local: Snapshot, remote: Snapshot, blocked: set<string>)
    ensures OrderedActions(Plan(base, local, remote, blocked))
    ensures forall action :: action in Plan(base, local, remote, blocked) <==>
                             DecideAt(base, local, remote, blocked, action.path) == Some(action.kind)
  {
    var keys := base.Keys + local.Keys + remote.Keys;
    PlanKeysContains(Sorted(keys), base, local, remote, blocked);
    forall action: Action | DecideAt(base, local, remote, blocked, action.path) == Some(action.kind)
      ensures action.path in keys
    {
    }
  }

  // A decision names the side that moved: a side is overwritten or deleted only
  // when it still holds what base recorded, and only a path on which both sides
  // moved apart is handed to a merge. Conversely every such path gets its action.
  predicate Means(kind: ActionType, b: Option<Content>, l: Option<Content>, r: Option<Content>, blocked: bool) {
    match kind
    case PushToRemote => !blocked && l.Some? && r == b && l != b
    case DeleteRemote => !blocked && l.None? && r == b && r.Some?
    case PullToLocal => !blocked && r.Some? && l == b && r != b
    case DeleteLocal => !blocked && r.None? && l == b && l.Some?
    case MergeBoth => !blocked && l != b && r != b && l != r
    case RemoveRemote => blocked && r.Some?
  }

  lemma DecideMeaning(kind: ActionType, b: Option<Content>, l: Option<Content>, r: Option<Content>, blocked: bool)
    ensures Decide(b, l, r, blocked) == Some(kind) <==> Means(kind, b, l, r, blocked)
  {
  }

  lemma PlanMeaning(base: Snapshot, local: Snapshot, remote: Snapshot, blocked: set<string>, kind: ActionType,
                    path: string)
    ensures Action(kind, path) in Plan(base, local, remote, blocked)
       <==> Means(kind, Lookup(base, path), Lookup(local, path), Lookup(remote, path), path in blocked)
  {
    PlanContains(base, local, remote, blocked);
    DecideMeaning(kind, Lookup(base, path), Lookup(local, path), Lookup(remote, path), path in blocked);
    assert Action(kind, path).path == path && Action(kind, path).kind == kind;
  }

  // Nothing is left to do on a path: both sides agree, or it is blocked and gone
  // from the repository.
  predicate Settled(local: Snapshot, remote: Snapshot, blocked: set<string>, path: string) {
    if path in blocked then path !in remote else Lookup(local, path) == Lookup(remote, path)
  }

  // A pass has nothing to do exactly when every path is settled, whatever base says.
  lemma PlanQuiet(base: Snapshot, local: Snapshot, remote: Snapshot, blocked: set<string>)
    ensures Plan(base, local, remote, blocked) == [] <==> forall path :: Settled(local, remote, blocked, path)
  {
    PlanContains(base, local, remote, blocked);
    var plan := Plan(base, local, remote, blocked);
    if plan == [] {
      forall path: string
        ensures Settled(local, remote, blocked, path)
      {
        forall kind: ActionType
          ensures DecideAt(base, local, remote, blocked, path) != Some(kind)
        {
          assert Action(kind, path) !in plan;
        }
      }
    } else {
      assert plan[0] in plan;
      assert !Settled(local, remote, blocked, plan[0].path);
    }
  }
}
