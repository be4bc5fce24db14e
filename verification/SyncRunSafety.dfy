// What no run of any machines does to a file.
module SyncRunSafety {
  import opened Strings
  import opened Snapshots
  import opened ResourcePlanning
  import opened SyncPass
  import opened SyncSafety
  import opened SyncRuns

  // A path on which the safety promise is made: no first-run direction, not
  // blocked, and not an install manifest. Skipped and held paths, failed writes
  // and existing conflicts are all included.
  predicate GuardedPass(env: Env, machine: Machine, path: string) {
    var role := env.role(path);
    && env.mode == MergeMode && !role.blocked && role.strategy != InstallManifest
    && (path in machine.local ==> role.owned && !role.internal)
  }

  predicate GuardedStep(world: World, step: Step, path: string)
    requires Shaped(world)
  {
    step.Attempt? && step.id < |world.machines| ==> GuardedPass(step.env, world.machines[step.id], path)
  }

  predicate IsEngineStep(world: World, step: Step)
    requires Shaped(world)
  {
    (step.Pull? || step.Attempt?) && step.id < |world.machines|
  }

  // A version of one of the two sides may be replaced in this pass: it is the
  // machine's base, or a merge of the pass takes it in. The repository then gets the
  // merge result, and the local file what it shares after receiving it.
  predicate Replaceable(role: Role, mode: FirstSyncMode, before: PathState, remote: bool,
                        was: Option<Content>, became: Option<Content>)
  {
    was != became ==>
      || was == before.entry
      || (&& Merges(role, mode, before)
          && was == (if remote then before.file else before.local)
          && became == (if remote then Incoming(role, mode, before) else Shares(role, mode, before)))
  }

  predicate ReplaceableHere(world: World, step: Step, path: string, remote: bool,
                            was: Option<Content>, became: Option<Content>)
    requires Shaped(world) && IsEngineStep(world, step)
  {
    if step.Pull? then was == became
    else
      var before := StateAt(world.machines[step.id], world.copies[step.id].clone.tree, path);
      Replaceable(step.env.role(path), step.env.mode, before, remote, was, became)
  }

  // A local file is overwritten or deleted only if it still holds the machine's
  // base, or by the result of this step's merge; and no other machine is touched.
  predicate LocalSafeTo(world: World, step: Step, next: World, path: string)
    requires Shaped(world) && IsEngineStep(world, step) && |next.machines| == |world.machines|
  {
    && ReplaceableHere(world, step, path, false,
                       Lookup(world.machines[step.id].local, path), Lookup(next.machines[step.id].local, path))
    && next.machines == world.machines[step.id := next.machines[step.id]]
  }

  predicate LocalSafe(world: World, step: Step, path: string)
    requires Shaped(world) && IsEngineStep(world, step)
  {
    LocalSafeTo(world, step, Next(world, step), path)
  }

  // A repository file is overwritten or deleted only if it still holds the
  // machine's base, or by the result of this step's merge that took it in.
  predicate RemoteSafeTo(world: World, step: Step, next: World, path: string)
    requires Shaped(world) && IsEngineStep(world, step)
  {
    ReplaceableHere(world, step, path, true, RemoteAt(world, path), RemoteAt(next, path))
  }

  predicate RemoteSafe(world: World, step: Step, path: string)
    requires Shaped(world) && IsEngineStep(world, step)
  {
    RemoteSafeTo(world, step, Next(world, step), path)
  }

  // The clone holds nothing unpushed at the path.
  predicate NothingUnpushedAt(clone: Clone, path: string) {
    Lookup(clone.tree.files, path) == Lookup(clone.upstream.files, path)
  }

  lemma ConcludedAt(world: World, id: nat, pass: Pass, push: Push, path: string)
    requires Shaped(world) && id < |world.machines| && pass.saved.local == pass.local
    ensures var next := Concluded(world, id, pass, push);
            && next.machines[id].local == pass.local && next.machines == world.machines[id := next.machines[id]]
            && (|| RemoteAt(next, path) == RemoteAt(world, path)
                || (world.remote.version == world.copies[id].version
                    && RemoteAt(next, path) == Lookup(pass.tree.files, path)))
  {
  }

  // What an attempt does to one path of the machine and of the repository.
  lemma AttemptedAt(world: World, id: nat, env: Env, push: Push, path: string)
    requires Shaped(world) && id < |world.machines|
    ensures var next, after := Attempted(world, id, env, push),
            PassCell(env, world.machines[id], world.copies[id].clone.tree, path);
            && Lookup(next.machines[id].local, path) == after.local
            && next.machines == world.machines[id := next.machines[id]]
            && (|| RemoteAt(next, path) == RemoteAt(world, path)
                || (world.remote.version == world.copies[id].version && RemoteAt(next, path) == after.file))
  {
    var machine, view := world.machines[id], world.copies[id].clone.tree;
    AfterAt(env, machine, view, path);
    ConcludedAt(world, id, PassOf(env, machine, view), push, path);
  }

  lemma PassReplaces(env: Env, machine: Machine, view: Tree, path: string)
    requires GuardedPass(env, machine, path)
    ensures var role, before, after := env.role(path), StateAt(machine, view, path), PassCell(env, machine, view, path);
            && Replaceable(role, env.mode, before, false, before.local, after.local)
            && Replaceable(role, env.mode, before, true, before.file, after.file)
  {
    OverwritesOnlyBase(env.role(path), StateAt(machine, view, path));
  }

  lemma AttemptIsSafe(world: World, id: nat, env: Env, push: Push, path: string)
    requires Inv(world) && id < |world.machines| && GuardedPass(env, world.machines[id], path)
    ensures LocalSafeTo(world, Attempt(id, env, push), Attempted(world, id, env, push), path)
    ensures NothingUnpushedAt(world.copies[id].clone, path) ==>
              RemoteSafeTo(world, Attempt(id, env, push), Attempted(world, id, env, push), path)
  {
    AttemptedAt(world, id, env, push, path);
    PassReplaces(env, world.machines[id], world.copies[id].clone.tree, path);
  }

  // An engine step is safe on the machine in every run, also in those that give up,
  // fail to rebase or push on top of commits that were left in a clone.
  lemma StepIsSafe(world: World, step: Step, path: string)
    requires Inv(world) && IsEngineStep(world, step) && GuardedStep(world, step, path)
    ensures LocalSafe(world, step, path)
    ensures NothingUnpushedAt(world.copies[step.id].clone, path) ==> RemoteSafe(world, step, path)
  {
    if step.Attempt? && world.copies[step.id].pulled {
      AttemptIsSafe(world, step.id, step.env, step.push, path);
      AttemptIs(world, step.id, step.env, step.push);
    }
  }

  // Every engine step of every run is safe on the machine; and in the repository,
  // if the clone that was pulled has nothing unpushed at the path.
  lemma EveryRunIsSafe(world: World, steps: seq<Step>, i: nat, path: string)
    requires Initial(world) && i < |steps|
    requires IsEngineStep(After(world, steps[..i]), steps[i]) && GuardedStep(After(world, steps[..i]), steps[i], path)
    ensures LocalSafe(After(world, steps[..i]), steps[i], path)
    ensures NothingUnpushedAt(After(world, steps[..i]).copies[steps[i].id].clone, path) ==>
              RemoteSafe(After(world, steps[..i]), steps[i], path)
  {
    RunKeepsInv(world, steps[..i]);
    StepIsSafe(After(world, steps[..i]), steps[i], path);
  }

  // So a run in which no synchronization gives up is safe throughout.
  lemma PersistentRunIsSafe(world: World, steps: seq<Step>, i: nat, path: string)
    requires Initial(world) && i < |steps|
    requires forall j :: 0 <= j < i ==> !GivesUp(After(world, steps[..j]), steps[j])
    requires IsEngineStep(After(world, steps[..i]), steps[i]) && GuardedStep(After(world, steps[..i]), steps[i], path)
    ensures LocalSafe(After(world, steps[..i]), steps[i], path) && RemoteSafe(After(world, steps[..i]), steps[i], path)
  {
    forall j | 0 <= j < |steps[..i]|
      ensures !GivesUp(After(world, steps[..i][..j]), steps[..i][j])
    {
      assert steps[..i][..j] == steps[..j];
    }
    RunKeepsPublished(world, steps[..i]);
    assert NothingUnpushed(After(world, steps[..i]).copies[steps[i].id].clone);
    EveryRunIsSafe(world, steps, i, path);
  }

  // ---- Exactly when pushing from a clone is safe ----

  // If a pass on this clone commits something, its push is safe at the path.
  predicate PushIsSafe(env: Env, machine: Machine, clone: Clone, path: string) {
    var next, before := TreeAfter(env, machine, clone.tree), StateAt(machine, clone.tree, path);
    next != clone.tree ==>
      Replaceable(env.role(path), env.mode, before, true, Lookup(clone.upstream.files, path),
                  Lookup(next.files, path))
  }

  // A path that no file of the set has.
  ghost function Fresh(paths: set<string>): (path: string)
    ensures path !in paths
  {
    var length := Longest(paths);
    seq(length + 1, i => 'x')
  }

  // A machine that has recorded all of its clone and has one new file to push.
  ghost function Follower(clone: Clone, added: string): Machine {
    Machine(clone.tree.files[added := Bytes("")], clone.tree.files, clone.tree.files)
  }

  lemma FollowerCommits(env: Env, clone: Clone, added: string)
    requires env.mode == MergeMode && env.role(added) == PLAIN
    requires added !in clone.tree.files && added !in clone.tree.conflicts
    ensures TreeAfter(env, Follower(clone, added), clone.tree) != clone.tree
  {
    AfterAt(env, Follower(clone, added), clone.tree, added);
    assert PassCell(env, Follower(clone, added), clone.tree, added).file == Some(Bytes(""));
  }

  lemma RecordedStays(before: PathState)
    requires before.local == before.entry == before.file
    ensures CellAfter(PLAIN, MergeMode, before).file == before.file && !Merges(PLAIN, MergeMode, before)
  {
  }

  lemma FollowerPushes(env: Env, clone: Clone, path: string, added: string)
    requires env.mode == MergeMode && env.role(path) == env.role(added) == PLAIN && path != added
    requires added !in clone.tree.files && added !in clone.tree.conflicts
    requires !NothingUnpushedAt(clone, path)
    ensures !PushIsSafe(env, Follower(clone, added), clone, path)
  {
    FollowerCommits(env, clone, added);
    AfterAt(env, Follower(clone, added), clone.tree, path);
    RecordedStays(StateAt(Follower(clone, added), clone.tree, path));
  }

  // Whatever the machine and its files: pushing from the clone is safe at the path
  // if and only if the clone has nothing unpushed there.
  ghost predicate AlwaysSafe(clone: Clone, path: string) {
    forall env, machine :: GuardedPass(env, machine, path) ==> PushIsSafe(env, machine, clone, path)
  }

  lemma CleanPushIsSafe(env: Env, machine: Machine, clone: Clone, path: string)
    requires NothingUnpushedAt(clone, path) && GuardedPass(env, machine, path)
    ensures PushIsSafe(env, machine, clone, path)
  {
    AfterAt(env, machine, clone.tree, path);
    PassReplaces(env, machine, clone.tree, path);
  }

  lemma UncleanPushCanFail(clone: Clone, path: string) returns (env: Env, machine: Machine)
    requires !NothingUnpushedAt(clone, path)
    ensures GuardedPass(env, machine, path) && !PushIsSafe(env, machine, clone, path)
  {
    env := Env(any => PLAIN, MergeMode, (upstream, tree, head) => None);
    var added := Fresh(clone.tree.files.Keys + clone.tree.conflicts.Keys + {path});
    machine := Follower(clone, added);
    FollowerPushes(env, clone, path, added);
  }

  lemma PushIsSafeExactly(clone: Clone, path: string)
    ensures AlwaysSafe(clone, path) <==> NothingUnpushedAt(clone, path)
  {
    if NothingUnpushedAt(clone, path) {
      forall env, machine | GuardedPass(env, machine, path)
        ensures PushIsSafe(env, machine, clone, path)
      {
        CleanPushIsSafe(env, machine, clone, path);
      }
    } else {
      var env, machine := UncleanPushCanFail(clone, path);
    }
  }
}
