// internal/syncengine/engine.go: syncOnce as the source runs it, on the files of
// one machine and the head of the shared repository.
module SyncEngine {
  import opened Strings
  import opened Snapshots
  import opened Reconcile
  import opened ResourcePlanning
  import opened SyncPass

  // The surroundings of a pass, in the engine's terms.
  datatype Config = Config(
    strategy: string -> Strategy,
    owns: string -> bool,
    textMerge: (Content, Content, Content) -> MergeResult,
    restore: (string, Option<Content>, Option<Content>, Content) -> Option<Content>,
    skipPrefixes: seq<string>,
    blocked: seq<string>,
    held: set<string>,
    failing: set<string>,
    pendingInstall: string -> bool,
    mode: FirstSyncMode,
    rebase: (Tree, Tree, Tree) -> Option<Tree>)

  function RoleOf(config: Config, path: string): Role {
    Role(config.owns(path), IsInternalPortablePath(path), HasAnyPrefix(path, config.skipPrefixes),
         path in config.blocked, path in config.held, path in config.failing,
         config.pendingInstall(path), config.strategy(path), config.textMerge,
         (stored, local, content) => config.restore(path, stored, local, content))
  }

  function EnvOf(config: Config): Env {
    Env(path => RoleOf(config, path), config.mode, config.rebase)
  }

  // Validation keeps the owned files without an issue.
  function Valid(config: Config, files: Snapshot): Snapshot {
    map path | path in files && (IsInternalPortablePath(path) || config.owns(path)) && path !in config.blocked ::
        files[path]
  }

  // The planner's whole-snapshot views are the per-path views of a pass.
  ghost predicate ViewAt(config: Config, machine: Machine, tree: Tree, plan: ResourcePlan, path: string) {
    && Lookup(plan.base, path) == BaseView(RoleOf(config, path), Lookup(machine.state, path))
    && Lookup(plan.local, path) == LocalView(RoleOf(config, path), Lookup(machine.local, path),
                                             Lookup(tree.files, path))
    && Lookup(plan.remote, path) == RemoteView(RoleOf(config, path), Lookup(tree.files, path))
  }

  ghost predicate Views(config: Config, machine: Machine, tree: Tree, plan: ResourcePlan) {
    forall path :: ViewAt(config, machine, tree, plan, path)
  }

  lemma BaseViewIs(config: Config, machine: Machine, path: string)
    ensures Lookup(Without(Owned(machine.state, config.owns), config.skipPrefixes), path)
         == BaseView(RoleOf(config, path), Lookup(machine.state, path))
  {
  }

  lemma LocalViewIs(config: Config, machine: Machine, tree: Tree, path: string)
    ensures Lookup(Without(WithInternal(machine.local, Valid(config, tree.files)), config.skipPrefixes), path)
         == LocalView(RoleOf(config, path), Lookup(machine.local, path), Lookup(tree.files, path))
  {
  }

  lemma RemoteViewIs(config: Config, tree: Tree, path: string)
    ensures Lookup(WithBlocked(Without(Valid(config, tree.files), config.skipPrefixes), tree.files, config.blocked),
                   path)
         == RemoteView(RoleOf(config, path), Lookup(tree.files, path))
  {
  }

  lemma PlanViews(config: Config, machine: Machine, tree: Tree)
    ensures Views(config, machine, tree,
              PreparedPlan(machine.state, machine.local, tree.files, Valid(config, tree.files), config.owns,
                           config.skipPrefixes, config.blocked))
  {
    var plan := PreparedPlan(machine.state, machine.local, tree.files, Valid(config, tree.files), config.owns,
                             config.skipPrefixes, config.blocked);
    forall path: string
      ensures ViewAt(config, machine, tree, plan, path)
    {
      BaseViewIs(config, machine, path);
      LocalViewIs(config, machine, tree, path);
      RemoteViewIs(config, tree, path);
    }
  }

  // The actions of a pass are exactly the kinds that the per-path rules decide.
  lemma PlannedActions(config: Config, machine: Machine, tree: Tree, plan: ResourcePlan, actions: seq<Action>)
    requires Views(config, machine, tree, plan)
    requires plan.actions == Plan(plan.base, plan.local, plan.remote, Elements(config.blocked))
    requires actions == FirstSyncActions(plan.actions, plan.local, plan.remote, config.mode)
    ensures OrderedActions(actions)
    ensures forall action :: action in actions <==>
              PassKind(EnvOf(config), machine, tree, action.path) == Some(action.kind)
  {
    PlanContains(plan.base, plan.local, plan.remote, Elements(config.blocked));
    FirstSyncMembers(plan.actions, plan.local, plan.remote, config.mode);
    forall action: Action
      ensures action in actions <==> PassKind(EnvOf(config), machine, tree, action.path) == Some(action.kind)
    {
      DecidedKind(config, machine, tree, plan, action.path);
      var decided := DecideAt(plan.base, plan.local, plan.remote, Elements(config.blocked), action.path);
      assert forall kind :: Action(kind, action.path) in plan.actions <==> decided == Some(kind);
    }
  }

  lemma DecidedKind(config: Config, machine: Machine, tree: Tree, plan: ResourcePlan, path: string)
    requires Views(config, machine, tree, plan)
    ensures PassKind(EnvOf(config), machine, tree, path)
         == match DecideAt(plan.base, plan.local, plan.remote, Elements(config.blocked), path)
            case None => None
            case Some(kind) => Some(FirstSyncKind(config.mode, kind, path in plan.local, path in plan.remote))
  {
    assert ViewAt(config, machine, tree, plan, path);
  }

  // The shared repository.
  class Hub {
    var head: Tree

    constructor (head: Tree)
      ensures this.head == head
    {
      this.head := head;
    }
  }

  class Replica {
    var local: Snapshot
    var state: Snapshot
    var store: Snapshot
    // The clone's working tree, the upstream tree it last fetched, and whether a
    // rebase has stopped in it.
    var files: Snapshot
    var conflicts: map<string, Bundle>
    var upstream: Tree
    var stopped: bool

    function Abstract(): Machine
      reads this
    {
      Machine(local, state, store)
    }

    function CloneTree(): Tree
      reads this
    {
      Tree(files, conflicts)
    }

    function Copy(): Clone
      reads this
    {
      Clone(CloneTree(), upstream, stopped)
    }

    function CellAt(preserve: set<string>, path: string): Cell
      reads this
    {
      Cell(Lookup(local, path), Lookup(files, path), Lookup(conflicts, path), path in preserve)
    }

    // restoreBytes: a structured document is restored into the local one over the
    // stored merge base; any other content replaces the file.
    method RestoreBytes(role: Role, path: string, content: Content) returns (restored: bool)
      modifies this`local
      ensures var received := Receive(role, Lookup(store, path), old(Lookup(local, path)), content);
              && restored == received.Some?
              && Lookup(local, path) == (if restored then received else old(Lookup(local, path)))
      ensures forall other :: other != path ==> Lookup(local, other) == old(Lookup(local, other))
    {
      var data := Some(content);
      if role.strategy == StructuredMerge {
        data := (role.restore)(Lookup(store, path), Lookup(local, path), content);
      }
      if data.None? || role.failing {
        return false;
      }
      local := local[path := data.value];
      restored := true;
    }

    // mergeResource: reports whether the path must keep its base.
    method MergeResource(role: Role, path: string, collected: Snapshot, ghost preserve: set<string>)
      returns (keep: bool)
      requires Lookup(collected, path) == Lookup(local, path)
      modifies this`local, this`files, this`conflicts
      ensures var after := ActMerge(role, Lookup(store, path), old(CellAt(preserve, path)));
              && CellAt(preserve, path).(kept := after.kept) == after
              && after.kept == (path in preserve || keep)
      ensures forall other :: other != path ==> CellAt(preserve, other) == old(CellAt(preserve, other))
    {
      var base, ours, theirs := Lookup(store, path), Lookup(collected, path), Lookup(files, path);
      match MergeContents(role, base, ours, theirs)
      case MergeFailed =>
        keep := true;
      case MergeConflict =>
        if path !in conflicts {
          conflicts := conflicts[path := Bundle(Variant(base), Variant(ours), Variant(theirs))];
        }
        keep := true;
      case MergedContent(content) =>
        files := files[path := content];
        keep := false;
        if role.strategy != InstallManifest {
          var restored := RestoreBytes(role, path, content);
          keep := !restored;
        }
    }

    // One iteration of the apply loop.
    method ApplyAction(role: Role, action: Action, collected: Snapshot, unresolved: set<string>, preserve: set<string>)
      returns (preserved: set<string>)
      requires action.path in unresolved <==> action.path in conflicts
      requires Lookup(collected, action.path) == Lookup(local, action.path)
      requires action.kind == PushToRemote ==> action.path in collected
      requires action.kind == PullToLocal ==> action.path in files
      modifies this`local, this`files, this`conflicts
      ensures CellAt(preserved, action.path) == Act(role, Lookup(store, action.path),
                                                    old(CellAt(preserve, action.path)), action.kind)
      ensures forall other :: other != action.path ==> CellAt(preserved, other) == old(CellAt(preserve, other))
    {
      preserved := preserve;
      var path := action.path;
      if role.held {
        return;
      }
      if path in unresolved && action.kind != MergeBoth && action.kind != RemoveRemote {
        preserved := preserved + {path};
        return;
      }
      var install := role.strategy == InstallManifest;
      if action.kind == DeleteRemote && install && role.pendingInstall {
        preserved := preserved + {path};
        return;
      }
      match action.kind
      case MergeBoth =>
        var keep := MergeResource(role, path, collected, preserve);
        if keep {
          preserved := preserved + {path};
        }
      case PushToRemote =>
        files := files[path := collected[path]];
      case PullToLocal =>
        if !install {
          var restored := RestoreBytes(role, path, files[path]);
          if !restored {
            preserved := preserved + {path};
          }
        }
      case DeleteRemote =>
        files := files - {path};
        if !install {
          if role.failing {
            preserved := preserved + {path};
          } else {
            local := local - {path};
          }
        }
      case DeleteLocal =>
        if !install {
          if role.failing {
            preserved := preserved + {path};
          } else {
            local := local - {path};
          }
        }
      case RemoveRemote =>
        files := files - {path};
    }

    // The apply loop: each path of the plan is acted on once, from the state it
    // had before the loop, and no other path changes.
    method ApplyActions(env: Env, actions: seq<Action>, collected: Snapshot, preserve: set<string>)
      returns (preserved: set<string>)
      requires local == collected && OrderedActions(actions)
      requires forall action :: action in actions ==> action.kind == PushToRemote ==> action.path in collected
      requires forall action :: action in actions ==> action.kind == PullToLocal ==> action.path in files
      modifies this`local, this`files, this`conflicts
      ensures forall action :: action in actions ==>
                CellAt(preserved, action.path)
                == Act(env.role(action.path), Lookup(store, action.path), old(CellAt(preserve, action.path)),
                       action.kind)
      ensures forall path :: (forall action :: action in actions ==> action.path != path) ==>
                CellAt(preserved, path) == old(CellAt(preserve, path))
    {
      var unresolved := conflicts.Keys;
      preserved := preserve;
      for i := 0 to |actions|
        invariant forall j :: 0 <= j < i ==>
                    CellAt(preserved, actions[j].path)
                    == Act(env.role(actions[j].path), Lookup(store, actions[j].path),
                           old(CellAt(preserve, actions[j].path)), actions[j].kind)
        invariant forall path :: (forall j :: 0 <= j < i ==> actions[j].path != path) ==>
                    CellAt(preserved, path) == old(CellAt(preserve, path))
      {
        var action := actions[i];
        assert action in actions;
        forall j | 0 <= j < i
          ensures actions[j].path != action.path
        {
          BeforeTotal(actions[j].path, action.path);
        }
        assert CellAt(preserved, action.path) == old(CellAt(preserve, action.path));
        preserved := ApplyAction(env.role(action.path), action, collected, unresolved, preserved);
      }
      assert forall j :: 0 <= j < |actions| ==> actions[j] in actions;
    }

    method PlanPass(config: Config, ghost tree: Tree) returns (base: Snapshot, actions: seq<Action>)
      requires tree == Tree(files, conflicts)
      ensures forall path :: Lookup(base, path) == BaseView(RoleOf(config, path), Lookup(state, path))
      ensures OrderedActions(actions)
      ensures forall action :: action in actions <==>
                PassKind(EnvOf(config), Abstract(), tree, action.path) == Some(action.kind)
    {
      var plan := PrepareResourcePlan(state, local, files, Valid(config, files), config.owns, config.skipPrefixes,
                                      config.blocked);
      PlanViews(config, Abstract(), tree);
      base := plan.base;
      assert forall path :: ViewAt(config, Abstract(), tree, plan, path);
      actions := ApplyFirstSyncStrategy(plan.actions, plan.local, plan.remote, config.mode);
      PlannedActions(config, Abstract(), tree, plan, actions);
    }

    // Plan and apply: every path ends as the per-path rules say.
    method ApplyPass(config: Config, ghost machine: Machine, ghost tree: Tree)
      returns (base: Snapshot, preserved: set<string>)
      requires machine == Abstract() && tree == Tree(files, conflicts)
      modifies this`local, this`files, this`conflicts
      ensures forall path :: Lookup(base, path) == BaseView(RoleOf(config, path), Lookup(machine.state, path))
      ensures forall path :: CellAt(preserved, path) == PassCell(EnvOf(config), machine, tree, path)
    {
      var collected := local;
      var actions;
      base, actions := PlanPass(config, tree);
      forall action | action in actions
        ensures action.kind == PushToRemote ==> action.path in collected
        ensures action.kind == PullToLocal ==> action.path in files
      {
        KindInputs(RoleOf(config, action.path), config.mode, StateAt(machine, tree, action.path));
      }
      var preserve := KeptPaths(config);
      preserved := ApplyActions(EnvOf(config), actions, collected, preserve);
      forall path: string
        ensures CellAt(preserved, path) == PassCell(EnvOf(config), machine, tree, path)
        ensures path in conflicts ==> path in preserved
      {
        var kind := PassKind(EnvOf(config), machine, tree, path);
        assert kind.None? || Action(kind.value, path) in actions;
        ConflictKept(RoleOf(config, path), config.mode, StateAt(machine, tree, path));
      }
      preserved := preserved + conflicts.Keys;
    }

    // The paths that keep their base whatever the plan does to them.
    method KeptPaths(config: Config) returns (preserve: set<string>)
      ensures forall path :: path in preserve <==>
                || path in conflicts || path in config.held
                || (path in files && (IsInternalPortablePath(path) || config.owns(path))
                    && HasAnyPrefix(path, config.skipPrefixes))
    {
      var owned := SplitRemoteSnapshot(files, config.owns);
      var skipped := PathsUnder(owned, config.skipPrefixes);
      preserve := conflicts.Keys + config.held + skipped;
    }

    // preserveSnapshot: kept paths go back to their previous entry.
    method PreserveSnapshot(previous: Snapshot, current: Snapshot, preserve: set<string>) returns (next: Snapshot)
      ensures forall path :: Lookup(next, path) == if path in preserve then Lookup(previous, path)
              else Lookup(current, path)
    {
      next := current;
      var paths := preserve;
      while paths != {}
        invariant paths <= preserve
        invariant forall path :: Lookup(next, path) ==
                    if path in preserve && path !in paths then Lookup(previous, path) else Lookup(current, path)
        decreases paths
      {
        var path :| path in paths;
        next := if path in previous then next[path := previous[path]] else next - {path};
        paths := paths - {path};
      }
    }

    // CaptureRepoPreserving: records the repository's files as merge bases and
    // forgets the bases of paths that left it, except for kept paths.
    method CaptureRepoPreserving(snapshot: Snapshot, preserve: set<string>)
      modifies this`store
      ensures forall path :: Lookup(store, path) == if path in preserve then old(Lookup(store, path))
              else Lookup(snapshot, path)
    {
      var index := store;
      var paths := snapshot.Keys - preserve;
      while paths != {}
        invariant paths <= snapshot.Keys - preserve
        invariant forall path :: Lookup(index, path) ==
                    if path in snapshot && path !in preserve && path !in paths then Lookup(snapshot, path)
                        else Lookup(store, path)
        decreases paths
      {
        var path :| path in paths;
        index := index[path := snapshot[path]];
        paths := paths - {path};
      }
      paths := index.Keys;
      ghost var full := index;
      while paths != {}
        invariant paths <= full.Keys
        invariant forall path :: Lookup(index, path) ==
                    if path in full && path !in paths && path !in preserve && path !in snapshot then None
                        else Lookup(full, path)
        decreases paths
      {
        var path :| path in paths;
        if path !in preserve && path !in snapshot {
          index := index - {path};
        }
        paths := paths - {path};
      }
      store := index;
    }

    // Saves state.json and the merge bases after a pass.
    method SaveBases(config: Config, base: Snapshot, preserve: set<string>)
      modifies this`state, this`store
      ensures forall path :: Lookup(state, path) ==
                if path in preserve then Lookup(base, path) else Recorded(RoleOf(config, path), CellAt(preserve, path))
      ensures forall path :: Lookup(store, path) ==
                if path in preserve then old(Lookup(store, path))
                    else Recorded(RoleOf(config, path), CellAt(preserve, path))
    {
      var current := map path | path in files && config.owns(path) && !IsInternalPortablePath(path) :: files[path];
      assert forall path :: Lookup(current, path) == Recorded(RoleOf(config, path), CellAt(preserve, path));
      state := PreserveSnapshot(base, current, preserve);
      CaptureRepoPreserving(current, preserve);
    }

    // git pull --rebase; a rebase that fails leaves the clone stopped.
    method PullRebase(hub: Hub, config: Config) returns (pulled: bool)
      modifies this`files, this`conflicts, this`upstream, this`stopped
      ensures pulled <==> Pulled(EnvOf(config), old(Copy()), hub.head).Some?
      ensures pulled ==>
                Pulled(EnvOf(config), old(Copy()), hub.head) == Some(CloneTree()) && upstream == hub.head && !stopped
      ensures !pulled ==> Copy() == old(Copy()).(stopped := true)
    {
      if stopped {
        return false;
      }
      if Tree(files, conflicts) == upstream {
        files, conflicts := hub.head.files, hub.head.conflicts;
      } else {
        var rebased := config.rebase(upstream, Tree(files, conflicts), hub.head);
        if rebased.None? {
          stopped := true;
          return false;
        }
        files, conflicts := rebased.value.files, rebased.value.conflicts;
      }
      upstream := hub.head;
      pulled := true;
    }

    // Plan and apply, on the tree that was pulled.
    method ApplyPulled(config: Config) returns (base: Snapshot, preserve: set<string>)
      modifies this`files, this`conflicts, this`local
      ensures Abstract() == old(Abstract()).(local := LocalAfter(EnvOf(config), old(Abstract()), old(CloneTree())))
      ensures CloneTree() == TreeAfter(EnvOf(config), old(Abstract()), old(CloneTree()))
      ensures forall path :: Lookup(base, path) == BaseView(RoleOf(config, path), Lookup(old(Abstract()).state, path))
      ensures forall path :: CellAt(preserve, path) == PassCell(EnvOf(config), old(Abstract()), old(CloneTree()), path)
    {
      ghost var machine, tree := Abstract(), CloneTree();
      base, preserve := ApplyPass(config, machine, tree);
      assert forall path :: CellAt(preserve, path) == PassCell(EnvOf(config), machine, tree, path);
      AfterIs(EnvOf(config), machine, tree, local, files, conflicts);
    }

    // The last part of syncOnce: the saved state and merge bases.
    method Save(config: Config, base: Snapshot, preserve: set<string>, ghost machine: Machine, ghost tree: Tree)
      requires Abstract() == machine.(local := LocalAfter(EnvOf(config), machine, tree))
      requires forall path :: Lookup(base, path) == BaseView(RoleOf(config, path), Lookup(machine.state, path))
      requires forall path :: CellAt(preserve, path) == PassCell(EnvOf(config), machine, tree, path)
      modifies this`state, this`store
      ensures Abstract() == MachineAfter(EnvOf(config), machine, tree)
    {
      SaveBases(config, base, preserve);
      forall path: string
        ensures Lookup(state, path) == NextEntry(EnvOf(config), machine, tree, path)
        ensures Lookup(store, path) == NextStored(EnvOf(config), machine, tree, path)
      {
        assert old(CellAt(preserve, path)) == PassCell(EnvOf(config), machine, tree, path);
      }
      SavedIs(EnvOf(config), machine, tree, Abstract());
    }

    // The rest of an attempt after its pull: plan, apply, commit and push. A push
    // that another machine's commit beats is rejected and nothing is saved; with
    // nothing to commit there is no push at all.
    method Attempt(hub: Hub, config: Config, race: Option<Tree>) returns (changed: bool)
      modifies this`local, this`state, this`store, this`files, this`conflicts, this`upstream, hub
      ensures var machine, view := old(Abstract()), old(CloneTree());
              && (changed <==> TreeAfter(EnvOf(config), machine, view) != view)
              && CloneTree() == TreeAfter(EnvOf(config), machine, view)
              && (!changed ==>
                    && Abstract() == MachineAfter(EnvOf(config), machine, view)
                    && hub.head == old(hub.head) && upstream == old(upstream))
              && (changed && race.None? ==>
                    && Abstract() == MachineAfter(EnvOf(config), machine, view)
                    && hub.head == CloneTree() && upstream == CloneTree())
              && (changed && race.Some? ==>
                    && Abstract() == machine.(local := LocalAfter(EnvOf(config), machine, view))
                    && hub.head == race.value && upstream == old(upstream))
    {
      ghost var machine := Abstract();
      var view := Tree(files, conflicts);
      var base, preserve := ApplyPulled(config);
      changed := Tree(files, conflicts) != view;
      if changed && race.Some? {
        hub.head := race.value;
        return;
      }
      if changed {
        hub.head := Tree(files, conflicts);
        upstream := Tree(files, conflicts);
      }
      Save(config, base, preserve, machine, view);
    }

    // syncOnce: done when nothing had to be committed or the push was accepted;
    // otherwise the pass starts over from the fetched head while attempts remain.
    method SyncAttempts(hub: Hub, config: Config, attempts: nat, races: seq<Tree>) returns (result: SyncResult)
      modifies this, hub
      ensures Outcome(result, Abstract(), Copy(), hub.head)
           == SyncOutcome(EnvOf(config), attempts, old(Abstract()), old(Copy()), old(hub.head), races)
      decreases |races|, 1
    {
      ghost var outcome := SyncOutcome(EnvOf(config), attempts, Abstract(), Copy(), hub.head, races);
      var pulled := PullRebase(hub, config);
      if !pulled {
        return PullFailed;
      }
      var changed := Attempt(hub, config, if races == [] then None else Some(races[0]));
      if !changed || races == [] {
        result := Synced(changed);
      } else if attempts <= 1 {
        result := PushFailed;
      } else {
        result := Retry(hub, config, attempts, races, outcome);
      }
    }

    // Fetches and resets the clone to the commit that won.
    method Retry(hub: Hub, config: Config, attempts: nat, races: seq<Tree>, ghost outcome: Outcome)
      returns (result: SyncResult)
      requires attempts > 1 && races != [] && hub.head == races[0] && !stopped
      requires outcome == SyncOutcome(EnvOf(config), attempts - 1, Abstract(), Clone(races[0], races[0], false),
                                      races[0], races[1..])
      modifies this, hub
      ensures Outcome(result, Abstract(), Copy(), hub.head) == outcome
      decreases |races|, 0
    {
      files, conflicts, upstream := hub.head.files, hub.head.conflicts, hub.head;
      result := SyncAttempts(hub, config, attempts - 1, races[1..]);
    }

    // SyncOnce: three attempts unless configured otherwise.
    method SyncOnce(hub: Hub, config: Config, pushRetries: int, races: seq<Tree>) returns (result: SyncResult)
      modifies this, hub
      ensures var attempts := if pushRetries <= 0 then 3 else pushRetries;
              Outcome(result, Abstract(), Copy(), hub.head)
              == SyncOutcome(EnvOf(config), attempts, old(Abstract()), old(Copy()), old(hub.head), races)
    {
      result := SyncAttempts(hub, config, if pushRetries <= 0 then 3 else pushRetries, races);
    }
  }
}
