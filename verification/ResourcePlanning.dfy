// internal/syncengine/planning.go and the snapshot filters of resources.go.
module ResourcePlanning {
  import opened Strings
  import opened Snapshots
  import opened Reconcile

  // ---- Path classes ----

  // Conflict bundles and install metadata that the engine keeps in the repository.
  predicate IsInternalPortablePath(path: string) {
    var parts := Split(path, '/');
    || (|parts| == 5 && parts[..4] == ["agents", "_portable", "config", "install"] && parts[4] != "")
    || (|parts| == 6 && parts[..4] == ["agents", "_portable", "config", "conflicts"] && parts[4] != ""
        && parts[5] in {"record.json", "base", "local", "remote"})
  }

  // Prefixes end on a path segment: a trailing slash is dropped and re-added.
  predicate PathHasPrefix(path: string, prefix: string) {
    var trimmed := TrimSuffix(prefix, "/");
    path == trimmed || HasPrefix(path, trimmed + "/")
  }

  predicate HasAnyPrefix(path: string, prefixes: seq<string>) {
    exists i :: 0 <= i < |prefixes| && PathHasPrefix(path, prefixes[i])
  }

  function Without(snapshot: Snapshot, prefixes: seq<string>): Snapshot {
    map path | path in snapshot && !HasAnyPrefix(path, prefixes) :: snapshot[path]
  }

  function Owned(snapshot: Snapshot, owns: string -> bool): Snapshot {
    map path | path in snapshot && (IsInternalPortablePath(path) || owns(path)) :: snapshot[path]
  }

  method WithoutPrefixes(snapshot: Snapshot, prefixes: seq<string>) returns (out: Snapshot)
    ensures out == Without(snapshot, prefixes)
  {
    out := map[];
    var paths := snapshot.Keys;
    while paths != {}
      invariant paths <= snapshot.Keys
      invariant out == map path | path in snapshot && path !in paths && !HasAnyPrefix(path, prefixes) :: snapshot[path]
      decreases paths
    {
      var path :| path in paths;
      var skip := false;
      for i := 0 to |prefixes|
        invariant !skip
        invariant forall j :: 0 <= j < i ==> !PathHasPrefix(path, prefixes[j])
      {
        if PathHasPrefix(path, prefixes[i]) {
          skip := true;
          break;
        }
      }
      if !skip {
        out := out[path := snapshot[path]];
      }
      paths := paths - {path};
    }
  }

  method PathsUnder(snapshot: Snapshot, prefixes: seq<string>) returns (paths: set<string>)
    ensures forall path :: path in paths <==> path in snapshot && HasAnyPrefix(path, prefixes)
  {
    paths := {};
    for i := 0 to |prefixes|
      invariant forall path :: path in paths <==>
                  path in snapshot && exists j :: 0 <= j < i && PathHasPrefix(path, prefixes[j])
    {
      paths := paths + set path | path in snapshot && PathHasPrefix(path, prefixes[i]);
    }
  }

  method SplitRemoteSnapshot(remote: Snapshot, owns: string -> bool) returns (owned: Snapshot)
    ensures owned == Owned(remote, owns)
  {
    owned := map[];
    var paths := remote.Keys;
    while paths != {}
      invariant paths <= remote.Keys
      invariant owned == map path | path in remote && path !in paths
                && (IsInternalPortablePath(path) || owns(path)) :: remote[path]
      decreases paths
    {
      var path :| path in paths;
      if IsInternalPortablePath(path) || owns(path) {
        owned := owned[path := remote[path]];
      }
      paths := paths - {path};
    }
  }

  // ---- The guarded plan ----

  datatype ResourcePlan = ResourcePlan(base: Snapshot, local: Snapshot, remote: Snapshot, actions: seq<Action>)

  // The repository's own metadata is shown to both sides, so it never differs.
  function WithInternal(local: Snapshot, validRemote: Snapshot): Snapshot {
    map path | path in local.Keys + validRemote.Keys && (path in local || IsInternalPortablePath(path))
      :: if path in validRemote && IsInternalPortablePath(path) then validRemote[path] else local[path]
  }

  function WithBlocked(remote: Snapshot, snapshot: Snapshot, blockedPaths: seq<string>): Snapshot {
    map path | path in remote.Keys + snapshot.Keys && (path in remote || path in blockedPaths)
      :: if path in blockedPaths && path in snapshot then snapshot[path] else remote[path]
  }

  ghost function PreparedPlan(base: Snapshot, local: Snapshot, remoteSnapshot: Snapshot, validRemote: Snapshot,
                              owns: string -> bool, skipPrefixes: seq<string>, blockedPaths: seq<string>): ResourcePlan
  {
    var planBase := Without(Owned(base, owns), skipPrefixes);
    var planLocal := Without(WithInternal(local, validRemote), skipPrefixes);
    var planRemote := WithBlocked(Without(validRemote, skipPrefixes), remoteSnapshot, blockedPaths);
    ResourcePlan(planBase, planLocal, planRemote, Plan(planBase, planLocal, planRemote, Elements(blockedPaths)))
  }

  method ShowInternal(local: Snapshot, validRemote: Snapshot) returns (view: Snapshot)
    ensures view == WithInternal(local, validRemote)
  {
    view := local;
    var paths := validRemote.Keys;
    ghost var shown: set<string> := {};
    while paths != {}
      invariant paths !! shown && paths + shown == validRemote.Keys
      invariant forall path :: path in view <==> path in local || (path in shown && IsInternalPortablePath(path))
      invariant forall path :: path in view ==>
                  view[path] == if path in shown && IsInternalPortablePath(path) then validRemote[path] else local[path]
      decreases paths
    {
      var path :| path in paths;
      if IsInternalPortablePath(path) {
        view := view[path := validRemote[path]];
      }
      paths := paths - {path};
      shown := shown + {path};
    }
  }

  method RetainBlocked(valid: Snapshot, snapshot: Snapshot, blockedPaths: seq<string>) returns (remote: Snapshot)
    ensures remote == WithBlocked(valid, snapshot, blockedPaths)
  {
    remote := valid;
    for i := 0 to |blockedPaths|
      invariant forall path :: path in remote <==> path in valid || (path in blockedPaths[..i] && path in snapshot)
      invariant forall path :: path in remote ==>
                  remote[path] == if path in blockedPaths[..i] && path in snapshot then snapshot[path] else valid[path]
    {
      assert blockedPaths[..i + 1] == blockedPaths[..i] + [blockedPaths[i]];
      if blockedPaths[i] in snapshot {
        remote := remote[blockedPaths[i] := snapshot[blockedPaths[i]]];
      }
    }
    assert blockedPaths[..|blockedPaths|] == blockedPaths;
  }

  method PrepareResourcePlan(base: Snapshot, local: Snapshot, remoteSnapshot: Snapshot, validRemote: Snapshot,
                             owns: string -> bool, skipPrefixes: seq<string>, blockedPaths: seq<string>)
    returns (plan: ResourcePlan)
    ensures plan == PreparedPlan(base, local, remoteSnapshot, validRemote, owns, skipPrefixes, blockedPaths)
  {
    var baseOwned := SplitRemoteSnapshot(base, owns);
    var view := ShowInternal(local, validRemote);
    view := WithoutPrefixes(view, skipPrefixes);
    baseOwned := WithoutPrefixes(baseOwned, skipPrefixes);
    var remote := WithoutPrefixes(validRemote, skipPrefixes);
    remote := RetainBlocked(remote, remoteSnapshot, blockedPaths);
    var actions := ReconcileWithBlocked(baseOwned, view, remote, blockedPaths);
    plan := ResourcePlan(baseOwned, view, remote, actions);
  }

  // What collection and remote validation guarantee about their snapshots:
  // collected paths are resource paths, and the valid view is part of the
  // repository snapshot and of the owned paths.
  ghost predicate PlanInputs(local: Snapshot, remoteSnapshot: Snapshot, validRemote: Snapshot, owns: string -> bool) {
    && (forall path :: path in local ==> owns(path) && !IsInternalPortablePath(path))
    && (forall path :: path in validRemote ==> path in remoteSnapshot && validRemote[path] == remoteSnapshot[path])
    && (forall path :: path in validRemote ==> owns(path) || IsInternalPortablePath(path))
  }

  // Only owned paths outside the skipped prefixes and the metadata reach the views.
  lemma PlanViewsAt(local: Snapshot, remoteSnapshot: Snapshot, validRemote: Snapshot, base: Snapshot,
                    owns: string -> bool, skipPrefixes: seq<string>, blockedPaths: seq<string>, path: string)
    requires PlanInputs(local, remoteSnapshot, validRemote, owns)
    ensures var plan := PreparedPlan(base, local, remoteSnapshot, validRemote, owns, skipPrefixes, blockedPaths);
            && (path in blockedPaths ==> (path in plan.remote <==> path in remoteSnapshot))
            && (path !in blockedPaths && (path in plan.base || path in plan.local || path in plan.remote) ==>
                  !HasAnyPrefix(path, skipPrefixes) && (IsInternalPortablePath(path) || owns(path)))
            && (path !in blockedPaths && IsInternalPortablePath(path)
                ==> Lookup(plan.local, path) == Lookup(plan.remote, path))
  {
  }

  // The guards of a plan: in path order with one action per path; a blocked path
  // is removed from the repository exactly when the repository holds it; and
  // every other action is on an owned path that is neither blocked, nor under a
  // skipped prefix, nor the repository's own metadata.
  predicate Guarded(action: Action, remoteSnapshot: Snapshot, owns: string -> bool, skipPrefixes: seq<string>,
                    blockedPaths: seq<string>) {
    if action.kind == RemoveRemote then action.path in blockedPaths && action.path in remoteSnapshot
    else action.path !in blockedPaths && !HasAnyPrefix(action.path, skipPrefixes)
         && !IsInternalPortablePath(action.path) && owns(action.path)
  }

  lemma GuardAt(base: Snapshot, local: Snapshot, remoteSnapshot: Snapshot, validRemote: Snapshot,
                owns: string -> bool, skipPrefixes: seq<string>, blockedPaths: seq<string>, action: Action)
    requires PlanInputs(local, remoteSnapshot, validRemote, owns)
    ensures var plan := PreparedPlan(base, local, remoteSnapshot, validRemote, owns, skipPrefixes, blockedPaths);
            var decision := DecideAt(plan.base, plan.local, plan.remote, Elements(blockedPaths), action.path);
            var guarded := Guarded(action, remoteSnapshot, owns, skipPrefixes, blockedPaths);
            && (decision == Some(action.kind) && action.kind != RemoveRemote ==> guarded)
            && (action.kind == RemoveRemote ==> (decision == Some(RemoveRemote) <==> guarded))
  {
    var plan := PreparedPlan(base, local, remoteSnapshot, validRemote, owns, skipPrefixes, blockedPaths);
    PlanViewsAt(local, remoteSnapshot, validRemote, base, owns, skipPrefixes, blockedPaths, action.path);
    DecideMeaning(action.kind, Lookup(plan.base, action.path), Lookup(plan.local, action.path),
                  Lookup(plan.remote, action.path),
                  action.path in Elements(blockedPaths));
  }

  lemma PlanGuards(base: Snapshot, local: Snapshot, remoteSnapshot: Snapshot, validRemote: Snapshot,
                   owns: string -> bool, skipPrefixes: seq<string>, blockedPaths: seq<string>)
    requires PlanInputs(local, remoteSnapshot, validRemote, owns)
    ensures var actions := PreparedPlan(base, local, remoteSnapshot, validRemote, owns, skipPrefixes,
                                        blockedPaths).actions;
            && OrderedActions(actions)
            && (forall path :: path in blockedPaths && path in remoteSnapshot ==> Action(RemoveRemote, path) in actions)
            && (forall action :: action in actions ==>
                  Guarded(action, remoteSnapshot, owns, skipPrefixes, blockedPaths))
  {
    var plan := PreparedPlan(base, local, remoteSnapshot, validRemote, owns, skipPrefixes, blockedPaths);
    PlanContains(plan.base, plan.local, plan.remote, Elements(blockedPaths));
    forall action: Action
      ensures action in plan.actions && action.kind != RemoveRemote
              ==> Guarded(action, remoteSnapshot, owns, skipPrefixes, blockedPaths)
      ensures action.kind == RemoveRemote
              ==> (action in plan.actions <==> Guarded(action, remoteSnapshot, owns, skipPrefixes, blockedPaths))
    {
      GuardAt(base, local, remoteSnapshot, validRemote, owns, skipPrefixes, blockedPaths, action);
    }
    forall path | path in blockedPaths && path in remoteSnapshot
      ensures Action(RemoveRemote, path) in plan.actions
    {
      assert Guarded(Action(RemoveRemote, path), remoteSnapshot, owns, skipPrefixes, blockedPaths);
    }
  }

  // ---- The first-run direction ----

  datatype FirstSyncMode = MergeMode | UseCloud | UseLocal

  function FirstSyncKind(mode: FirstSyncMode, kind: ActionType, inLocal: bool, inRemote: bool): ActionType {
    match mode
    case MergeMode => kind
    case UseCloud =>
      if kind == PushToRemote then DeleteLocal
      else if kind == MergeBoth then if inRemote then PullToLocal else DeleteLocal
      else kind
    case UseLocal =>
      if kind == PullToLocal then DeleteRemote
      else if kind == MergeBoth then if inLocal then PushToRemote else DeleteRemote
      else kind
  }

  function FirstSyncActions(actions: seq<Action>, local: Snapshot, remote: Snapshot,
                            mode: FirstSyncMode): (mapped: seq<Action>)
    ensures |mapped| == |actions|
    ensures forall i :: 0 <= i < |actions| ==>
              mapped[i] == Action(FirstSyncKind(mode, actions[i].kind, actions[i].path in local,
                                                actions[i].path in remote), actions[i].path)
  {
    seq(|actions|, i requires 0 <= i < |actions| =>
      Action(FirstSyncKind(mode, actions[i].kind, actions[i].path in local, actions[i].path in remote),
             actions[i].path))
  }

  method ApplyFirstSyncStrategy(actions: seq<Action>, local: Snapshot, remote: Snapshot, mode: FirstSyncMode)
    returns (mapped: seq<Action>)
    ensures mapped == FirstSyncActions(actions, local, remote, mode)
  {
    if mode == MergeMode {
      assert FirstSyncActions(actions, local, remote, mode) == actions;
      return actions;
    }
    mapped := [];
    for i := 0 to |actions|
      invariant mapped == FirstSyncActions(actions, local, remote, mode)[..i]
    {
      var action := actions[i];
      var kind := action.kind;
      if mode == UseCloud {
        if kind == PushToRemote {
          kind := DeleteLocal;
        } else if kind == MergeBoth {
          kind := if action.path in remote then PullToLocal else DeleteLocal;
        }
      } else {
        if kind == PullToLocal {
          kind := DeleteRemote;
        } else if kind == MergeBoth {
          kind := if action.path in local then PushToRemote else DeleteRemote;
        }
      }
      mapped := mapped + [Action(kind, action.path)];
    }
  }

  // The first-run direction re-labels actions: it keeps their paths and order.
  lemma FirstSyncMembers(actions: seq<Action>, local: Snapshot, remote: Snapshot, mode: FirstSyncMode)
    ensures OrderedActions(actions) ==> OrderedActions(FirstSyncActions(actions, local, remote, mode))
    ensures forall action :: action in FirstSyncActions(actions, local, remote, mode) <==>
              exists kind :: Action(kind, action.path) in actions
                             && action.kind == FirstSyncKind(mode, kind, action.path in local, action.path in remote)
  {
    var mapped := FirstSyncActions(actions, local, remote, mode);
    forall action: Action
      ensures action in mapped <==>
              exists kind :: Action(kind, action.path) in actions
                             && action.kind == FirstSyncKind(mode, kind, action.path in local, action.path in remote)
    {
      if action in mapped {
        var i :| 0 <= i < |mapped| && mapped[i] == action;
        assert actions[i] in actions && actions[i] == Action(actions[i].kind, action.path);
      }
      if kind :| Action(kind, action.path) in actions
                 && action.kind == FirstSyncKind(mode, kind, action.path in local, action.path in remote) {
        var i :| 0 <= i < |actions| && actions[i] == Action(kind, action.path);
        assert mapped[i] == action;
      }
    }
  }
}
