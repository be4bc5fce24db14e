// Which versions of a file survive every run, and which do not.
module SyncRetention {
  import opened Strings
  import opened Snapshots
  import opened ResourcePlanning
  import opened SyncPass
  import opened SyncSafety
  import opened SyncRuns
  import opened SyncRunSafety
  import opened SyncConvergence

  // The version is still in the machine's file, the repository has held it, or a
  // merge whose result was kept has taken it in. Commits that a clone has thrown
  // away do not count.
  predicate Known(world: World, id: nat, path: string, content: Content)
    requires id < |world.machines|
  {
    Lookup(world.machines[id].local, path) == Some(content) || (path, content) in world.published + world.absorbed
  }

  // The repository has held the machine's base entry, or the machine's own clone
  // still holds it.
  predicate Backed(world: World, id: nat, path: string)
    requires Shaped(world) && id < |world.machines|
  {
    var entry := Lookup(world.machines[id].state, path);
    entry.Some? ==> (path, entry.value) in world.published || Lookup(world.copies[id].clone.tree.files, path) == entry
  }

  ghost predicate AllBacked(world: World, path: string)
    requires Shaped(world)
  {
    forall id :: 0 <= id < |world.machines| ==> Backed(world, id, path)
  }

  // The step takes a version out of the machine's clone that the repository has
  // never held.
  predicate Displaces(world: World, step: Step, path: string)
    requires Shaped(world) && IsEngineStep(world, step)
  {
    var was, next := Lookup(world.copies[step.id].clone.tree.files, path), Next(world, step);
    && was.Some? && (path, was.value) !in next.published
    && Lookup(next.copies[step.id].clone.tree.files, path) != was
  }

  // The push of the attempt is rejected, and another attempt follows.
  predicate Resets(world: World, step: Step)
    requires Shaped(world)
  {
    && step.Attempt? && step.id < |world.machines| && world.copies[step.id].pulled && step.push == Retried
    && world.copies[step.id].version != world.remote.version
    && TreeAfter(step.env, world.machines[step.id], world.copies[step.id].clone.tree)
       != world.copies[step.id].clone.tree
  }

  // The merge of an attempt that is thrown away was not received as it was.
  predicate Garbles(world: World, step: Step, path: string)
    requires Shaped(world)
  {
    && Resets(world, step)
    && var role := step.env.role(path);
       var before := StateAt(world.machines[step.id], world.copies[step.id].clone.tree, path);
    Merges(role, step.env.mode, before) && Shares(role, step.env.mode, before).Some?
    && !Faithful(role, step.env.mode, before)
  }

  predicate Retains(world: World, step: Step, path: string)
    requires Shaped(world)
  {
    IsEngineStep(world, step) ==> !Displaces(world, step, path) && !Garbles(world, step, path)
  }

  // Only structured files can be received as something else.
  lemma UnstructuredIsNeverGarbled(world: World, step: Step, path: string)
    requires Shaped(world) && step.Attempt? && step.env.role(path).strategy != StructuredMerge
    ensures !Garbles(world, step, path)
  {
  }

  // ---- Base entries stay backed ----

  // What the concluding of an attempt does to the base entry and the clone at a path.
  lemma ConcludedBacking(world: World, id: nat, pass: Pass, push: Push, path: string)
    requires Shaped(world) && id < |world.machines|
    ensures var next := Concluded(world, id, pass, push);
            var entry := Lookup(next.machines[id].state, path);
            && next.machines == world.machines[id := next.machines[id]]
            && next.copies == world.copies[id := next.copies[id]]
            && world.published <= next.published
            && (|| next.machines[id].state == world.machines[id].state
                || (&& next.machines[id].state == pass.saved.state
                    && next.copies[id].clone.tree == pass.tree
                    && (pass.tree == world.copies[id].clone.tree || Versions(pass.tree.files) <= next.published)))
  {
  }

  lemma RecordedOrKept(role: Role, mode: FirstSyncMode, before: PathState)
    ensures var entry := EntryAfter(role, mode, before);
            entry.None? || entry == before.entry || entry == CellAfter(role, mode, before).file
  {
  }

  lemma OthersStayBacked(world: World, next: World, id: nat, path: string)
    requires Shaped(world) && Shaped(next) && AllBacked(world, path) && id < |world.machines| == |next.machines|
    requires next.machines == world.machines[id := next.machines[id]]
    requires next.copies == world.copies[id := next.copies[id]]
    requires world.published <= next.published && Backed(next, id, path)
    ensures AllBacked(next, path)
  {
    forall other | 0 <= other < |next.machines|
      ensures Backed(next, other, path)
    {
      assert Backed(world, other, path);
    }
  }

  lemma AttemptKeepsBacked(world: World, id: nat, env: Env, push: Push, path: string)
    requires Inv(world) && AllBacked(world, path) && id < |world.machines| && world.copies[id].pulled
    requires !Displaces(world, Attempt(id, env, push), path)
    ensures AllBacked(Next(world, Attempt(id, env, push)), path)
  {
    var machine, view := world.machines[id], world.copies[id].clone.tree;
    var next := Next(world, Attempt(id, env, push));
    AttemptIs(world, id, env, push);
    AttemptedIs(world, id, env, push);
    ConcludedBacking(world, id, PassOf(env, machine, view), push, path);
    AfterAt(env, machine, view, path);
    RecordedOrKept(env.role(path), env.mode, StateAt(machine, view, path));
    VersionsAt(TreeAfter(env, machine, view).files, path);
    assert Backed(world, id, path);
    assert Backed(next, id, path);
    OthersStayBacked(world, next, id, path);
  }

  lemma PullKeepsBacked(world: World, id: nat, env: Env, path: string)
    requires Inv(world) && AllBacked(world, path) && id < |world.machines|
    requires !Displaces(world, Pull(id, env), path)
    ensures AllBacked(Next(world, Pull(id, env)), path)
  {
    var next := Next(world, Pull(id, env));
    assert Backed(world, id, path);
    OthersStayBacked(world, next, id, path);
  }

  lemma StepKeepsBacked(world: World, step: Step, path: string)
    requires Inv(world) && AllBacked(world, path)
    requires IsEngineStep(world, step) ==> !Displaces(world, step, path)
    ensures AllBacked(Next(world, step), path)
  {
    match step
    case Attempt(id, env, push) =>
      if id < |world.machines| && world.copies[id].pulled {
        AttemptKeepsBacked(world, id, env, push, path);
      }
    case Pull(id, env) =>
      if id < |world.machines| {
        PullKeepsBacked(world, id, env, path);
      }
    case _ =>
      forall id | 0 <= id < |world.machines|
        ensures Backed(Next(world, step), id, path)
      {
        assert Backed(world, id, path);
      }
  }

  // ---- Versions stay known ----

  // A local file that still holds the base is replaced only if the repository's
  // file has left the base.
  lemma ReplacedBaseWasLeft(role: Role, before: PathState)
    requires LocalOwned(role, before) && !role.blocked && role.strategy != InstallManifest
    ensures var after := CellAfter(role, MergeMode, before);
            after.local != before.local && !Merges(role, MergeMode, before) ==>
              before.local == before.entry != before.file
  {
  }

  lemma MergeInputsRecorded(env: Env, machine: Machine, tree: Tree, discarded: bool, path: string)
    requires Keeps(env, machine, tree, discarded, path) && path in machine.local
    ensures (path, machine.local[path]) in MergedInputs(env, machine, tree, discarded)
  {
  }

  lemma AbsorbedBy(world: World, id: nat, env: Env, push: Push)
    requires Shaped(world) && id < |world.machines| && world.copies[id].pulled
    ensures var machine, view := world.machines[id], world.copies[id].clone.tree;
            Attempted(world, id, env, push).absorbed
            == world.absorbed + MergedInputs(env, machine, view, Resets(world, Attempt(id, env, push)))
  {
  }

  // A pass leaves the local file as it is, or the repository has held what it
  // replaces, or a merge that the file receives takes it in.
  lemma PassRetains(world: World, id: nat, env: Env, path: string)
    requires Inv(world) && id < |world.machines| && Backed(world, id, path)
    requires GuardedPass(env, world.machines[id], path)
    ensures var machine, view := world.machines[id], world.copies[id].clone.tree;
            var before := StateAt(machine, view, path);
            var after := PassCell(env, machine, view, path);
            || after.local == before.local
            || (before.local.Some? ==> (path, before.local.value) in world.published)
            || (path in machine.local && Merges(env.role(path), env.mode, before)
                && Shares(env.role(path), env.mode, before).Some?)
  {
    var before := StateAt(world.machines[id], world.copies[id].clone.tree, path);
    OverwritesOnlyBase(env.role(path), before);
    ReplacedBaseWasLeft(env.role(path), before);
  }

  lemma AttemptKeepsKnown(world: World, id: nat, env: Env, push: Push, path: string, content: Content)
    requires Inv(world) && id < |world.machines| && world.copies[id].pulled && Backed(world, id, path)
    requires GuardedPass(env, world.machines[id], path) && !Garbles(world, Attempt(id, env, push), path)
    requires Known(world, id, path, content)
    ensures Known(Attempted(world, id, env, push), id, path, content)
  {
    var machine, view := world.machines[id], world.copies[id].clone.tree;
    AttemptKeepsInv(world, id, env, push);
    AttemptedAt(world, id, env, push, path);
    PassRetains(world, id, env, path);
    AbsorbedBy(world, id, env, push);
    if path in machine.local && Keeps(env, machine, view, Resets(world, Attempt(id, env, push)), path) {
      MergeInputsRecorded(env, machine, view, Resets(world, Attempt(id, env, push)), path);
    }
  }

  lemma StepKeepsKnown(world: World, step: Step, id: nat, path: string, content: Content)
    requires Inv(world) && AllBacked(world, path) && id < |world.machines| && GuardedStep(world, step, path)
    requires Known(world, id, path, content) && Retains(world, step, path)
    requires !(step.Edit? && step.id == id && step.path == path)
    ensures Known(Next(world, step), id, path, content)
  {
    StepKeepsInv(world, step);
    if step.Attempt? && step.id < |world.machines| && world.copies[step.id].pulled {
      if step.id == id {
        assert Backed(world, id, path);
        AttemptIs(world, id, step.env, step.push);
        AttemptKeepsKnown(world, id, step.env, step.push, path, content);
      } else {
        StepIsSafe(world, step, path);
      }
    }
  }

  // Nothing is lost: a version that some machine's file holds at one point of a run
  // stays, as long as its user does not replace it, in that file, in the repository's
  // history or in a merge whose result was kept; if no step of the run takes a version
  // of the path out of a clone before the repository had it, nor throws away a merge
  // that was not received as it was.
  lemma {:induction false} NoVersionIsLost(world: World, steps: seq<Step>, id: nat, path: string, content: Content)
    requires Inv(world) && AllBacked(world, path)
    requires id < |world.machines| && Lookup(world.machines[id].local, path) == Some(content)
    requires forall i :: 0 <= i < |steps| ==> GuardedStep(After(world, steps[..i]), steps[i], path)
    requires forall i :: 0 <= i < |steps| ==> Retains(After(world, steps[..i]), steps[i], path)
    requires forall i :: 0 <= i < |steps| ==> !(steps[i].Edit? && steps[i].id == id && steps[i].path == path)
    ensures Inv(After(world, steps)) && AllBacked(After(world, steps), path)
    ensures Known(After(world, steps), id, path, content)
  {
    if steps != [] {
      var front, step := steps[..|steps| - 1], steps[|steps| - 1];
      forall i | 0 <= i < |front|
        ensures GuardedStep(After(world, front[..i]), front[i], path)
                && Retains(After(world, front[..i]), front[i], path)
      {
        assert front[..i] == steps[..i];
      }
      NoVersionIsLost(world, front, id, path, content);
      StepKeepsInv(After(world, front), step);
      StepKeepsBacked(After(world, front), step, path);
      StepKeepsKnown(After(world, front), step, id, path, content);
    }
  }

  // ---- Exactly when a retry is safe ----

  // A clone without unpushed versions of a path has none to lose.
  lemma CleanNeverDisplaces(world: World, step: Step, path: string)
    requires Inv(world) && IsEngineStep(world, step) && NothingUnpushedAt(world.copies[step.id].clone, path)
    ensures !Displaces(world, step, path)
  {
    VersionsAt(world.copies[step.id].clone.upstream.files, path);
  }

  lemma ResetIs(world: World, id: nat, env: Env)
    requires Shaped(world) && Resets(world, Attempt(id, env, Retried))
    ensures var next := Next(world, Attempt(id, env, Retried));
            && next.remote == world.remote && next.published == world.published
            && next.copies == world.copies[id := Copy(Clone(world.remote.tree, world.remote.tree, false),
                                                      world.remote.version, false)]
            && next.machines == world.machines[id := next.machines[id]]
            && next.machines[id].state == world.machines[id].state
  {
  }

  // The reset of a retry takes a version out of the clone exactly if the clone holds
  // one that the repository has never held.
  lemma ResetDisplacesExactly(world: World, id: nat, env: Env, path: string)
    requires Inv(world) && Resets(world, Attempt(id, env, Retried))
    ensures Displaces(world, Attempt(id, env, Retried), path) <==>
              var file := Lookup(world.copies[id].clone.tree.files, path);
              file.Some? && (path, file.value) !in world.published
  {
    ResetIs(world, id, env);
    VersionsAt(world.remote.tree.files, path);
  }

  // The clone holds a version of the path that is not upstream's.
  predicate HoldsUnpushed(clone: Clone, path: string) {
    path in clone.tree.files && !NothingUnpushedAt(clone, path)
  }

  // In whatever world and whatever the machine: a retry of this clone loses no version
  // of the path.
  ghost predicate RetrySafe(clone: Clone, path: string) {
    forall world, id: nat, env ::
      Inv(world) && Resets(world, Attempt(id, env, Retried)) && world.copies[id].clone == clone ==>
        !Displaces(world, Attempt(id, env, Retried), path)
  }

  // The world of one machine that has recorded its unpushed clone and has something
  // to push, while somebody else has emptied the repository.
  ghost function Rivalled(clone: Clone, added: string): World {
    World(Head(Tree(map[], map[]), 1), [Follower(clone, added)], [Copy(clone, 0, true)],
          Versions(clone.upstream.files), Versions(clone.upstream.files) + Versions(clone.tree.files), {})
  }

  lemma RivalledIsPossible(clone: Clone, added: string)
    requires !clone.stopped
    ensures Inv(Rivalled(clone, added))
  {
    var world := Rivalled(clone, added);
    forall path: string
      ensures BaseCommittedAt(clone.tree.files, clone.tree.files, world.committed, path)
    {
    }
    assert BasesCommitted(world.machines[0], world.committed);
    assert Versions(world.remote.tree.files) == {};
  }

  lemma UnpushedCanBeLost(clone: Clone, path: string) returns (world: World, env: Env)
    requires !clone.stopped && HoldsUnpushed(clone, path)
    ensures Inv(world) && Resets(world, Attempt(0, env, Retried)) && world.copies[0].clone == clone
    ensures Displaces(world, Attempt(0, env, Retried), path)
  {
    var added := Fresh(clone.tree.files.Keys + clone.tree.conflicts.Keys);
    env := Env(any => PLAIN, MergeMode, (upstream, tree, head) => None);
    world := Rivalled(clone, added);
    RivalledIsPossible(clone, added);
    FollowerCommits(env, clone, added);
    ResetDisplacesExactly(world, 0, env, path);
    VersionsAt(clone.upstream.files, path);
  }

  // A retry of a clone is safe at a path, if and only if the clone that was pulled
  // holds no unpushed version of it.
  lemma RetryIsSafeExactly(clone: Clone, path: string)
    requires !clone.stopped
    ensures RetrySafe(clone, path) <==> !HoldsUnpushed(clone, path)
  {
    if HoldsUnpushed(clone, path) {
      var world, env := UnpushedCanBeLost(clone, path);
    } else {
      forall world, id: nat, env |
        Inv(world) && Resets(world, Attempt(id, env, Retried)) && world.copies[id].clone == clone
        ensures !Displaces(world, Attempt(id, env, Retried), path)
      {
        ResetDisplacesExactly(world, id, env, path);
        VersionsAt(clone.upstream.files, path);
      }
    }
  }

  // ---- Runs that do not give up ----

  // Every base has been in the repository while every commit has.
  lemma PublishedIsBacked(world: World, path: string)
    requires Inv(world) && AllPublished(world)
    ensures AllBacked(world, path)
  {
    forall id | 0 <= id < |world.machines|
      ensures Backed(world, id, path)
    {
      assert BaseCommittedAt(world.machines[id].state, world.machines[id].store, world.committed, path);
    }
  }

  predicate Persists(world: World, step: Step, id: nat, path: string)
    requires Shaped(world)
  {
    && GuardedStep(world, step, path) && !Garbles(world, step, path) && !GivesUp(world, step)
    && !(step.Edit? && step.id == id && step.path == path)
  }

  lemma PersistentStep(world: World, step: Step, id: nat, path: string, content: Content)
    requires Inv(world) && AllPublished(world) && id < |world.machines|
    requires Known(world, id, path, content) && Persists(world, step, id, path)
    ensures Inv(Next(world, step)) && AllPublished(Next(world, step)) && Known(Next(world, step), id, path, content)
  {
    PublishedIsBacked(world, path);
    StepKeepsInv(world, step);
    StepKeepsPublished(world, step);
    if IsEngineStep(world, step) {
      assert NothingUnpushed(world.copies[step.id].clone);
      CleanNeverDisplaces(world, step, path);
    }
    StepKeepsKnown(world, step, id, path, content);
  }

  lemma {:induction false} PersistentSteps(world: World, steps: seq<Step>, id: nat, path: string, content: Content)
    requires Inv(world) && AllPublished(world)
    requires id < |world.machines| && Lookup(world.machines[id].local, path) == Some(content)
    requires forall i :: 0 <= i < |steps| ==> Persists(After(world, steps[..i]), steps[i], id, path)
    ensures Inv(After(world, steps)) && AllPublished(After(world, steps))
    ensures Known(After(world, steps), id, path, content)
  {
    if steps != [] {
      var front, step := steps[..|steps| - 1], steps[|steps| - 1];
      forall i | 0 <= i < |front|
        ensures Persists(After(world, front[..i]), front[i], id, path)
      {
        assert front[..i] == steps[..i];
      }
      PersistentSteps(world, front, id, path, content);
      PersistentStep(After(world, front), step, id, path, content);
    }
  }

  // As long as no step gives up, no clone holds an unpushed version, and nothing is
  // lost but what a discarded merge was not received as.
  lemma PersistentRunLosesNothing(world: World, early: seq<Step>, late: seq<Step>, id: nat, path: string,
                                  content: Content)
    requires Initial(world) && forall i :: 0 <= i < |early| ==> !GivesUp(After(world, early[..i]), early[i])
    requires id < |world.machines| && Lookup(After(world, early).machines[id].local, path) == Some(content)
    requires forall i :: 0 <= i < |late| ==> Persists(After(After(world, early), late[..i]), late[i], id, path)
    ensures Known(After(After(world, early), late), id, path, content)
  {
    RunKeepsInv(world, early);
    RunKeepsPublished(world, early);
    PersistentSteps(After(world, early), late, id, path, content);
  }

  // ---- A version that is lost ----

  // A machine has recorded an unpushed version and holds nothing else at the path;
  // nobody else has it, and no merge has taken it in.
  predicate OnlyHere(world: World, id: nat, path: string, content: Content)
    requires Shaped(world) && id < |world.machines|
  {
    && Lookup(world.machines[id].local, path) == Lookup(world.machines[id].state, path) == Some(content)
    && Lookup(world.copies[id].clone.tree.files, path) == Some(content)
    && (path, content) !in world.published + world.absorbed
  }

  lemma RecordedIsLeftAlone(role: Role, before: PathState)
    requires before.local == before.entry == before.file && Clear(role)
    ensures CellAfter(role, MergeMode, before).local == before.local && !Merges(role, MergeMode, before)
  {
  }

  lemma UnmergedIsNotAbsorbed(env: Env, machine: Machine, tree: Tree, discarded: bool, path: string)
    requires !Merges(env.role(path), env.mode, StateAt(machine, tree, path))
    ensures forall content :: (path, content) !in MergedInputs(env, machine, tree, discarded)
  {
  }

  lemma ResetForgets(world: World, id: nat, env: Env, path: string, content: Content)
    requires Inv(world) && Resets(world, Attempt(id, env, Retried)) && OnlyHere(world, id, path, content)
    requires env.mode == MergeMode && Clear(env.role(path))
    ensures var next := Next(world, Attempt(id, env, Retried));
            && Lookup(next.machines[id].local, path) == Lookup(next.machines[id].state, path) == Some(content)
            && NothingUnpushed(next.copies[id].clone) && next.copies[id].clone.upstream == next.remote.tree
            && (path, content) !in next.published + next.absorbed
            && RemoteAt(next, path) != Some(content)
  {
    var machine, view := world.machines[id], world.copies[id].clone.tree;
    ResetIs(world, id, env);
    AttemptIs(world, id, env, Retried);
    AttemptedAt(world, id, env, Retried, path);
    AbsorbedBy(world, id, env, Retried);
    RecordedIsLeftAlone(env.role(path), StateAt(machine, view, path));
    UnmergedIsNotAbsorbed(env, machine, view, true, path);
    VersionsAt(world.remote.tree.files, path);
  }

  lemma UnmovedIsNotMerged(role: Role, before: PathState)
    requires before.local == before.entry && Clear(role)
    ensures !Merges(role, MergeMode, before)
  {
  }

  lemma ConcludedRecords(world: World, id: nat, pass: Pass, push: Push, version: Version)
    requires Shaped(world) && id < |world.machines|
    ensures version in Concluded(world, id, pass, push).published ==>
              version in world.published || version in Versions(pass.tree.files)
    ensures version in Concluded(world, id, pass, push).absorbed ==>
              version in world.absorbed || version in pass.absorbed || version in pass.kept
  {
  }

  // The version is pushed by the machine's pass on the tree, or merged by it.
  predicate Records(env: Env, machine: Machine, view: Tree, path: string, content: Content) {
    || PassCell(env, machine, view, path).file == Some(content)
    || Merges(env.role(path), env.mode, StateAt(machine, view, path))
  }

  lemma AttemptRecords(world: World, id: nat, env: Env, push: Push, path: string, content: Content)
    requires Shaped(world) && id < |world.machines|
    requires !Records(env, world.machines[id], world.copies[id].clone.tree, path, content)
    ensures (path, content) in Attempted(world, id, env, push).published + Attempted(world, id, env, push).absorbed ==>
              (path, content) in world.published + world.absorbed
  {
    var machine, view := world.machines[id], world.copies[id].clone.tree;
    AttemptedIs(world, id, env, push);
    ConcludedRecords(world, id, PassOf(env, machine, view), push, (path, content));
    AfterAt(env, machine, view, path);
    VersionsAt(TreeAfter(env, machine, view).files, path);
    UnmergedIsNotAbsorbed(env, machine, view, false, path);
    UnmergedIsNotAbsorbed(env, machine, view, true, path);
  }

  lemma PullRecordsNothing(world: World, id: nat, env: Env)
    requires Shaped(world) && id < |world.machines|
    ensures Next(world, Pull(id, env)).published == world.published
    ensures Next(world, Pull(id, env)).absorbed == world.absorbed
  {
  }

  lemma VisitRecords(world: World, visit: Visit, path: string, content: Content)
    requires Shaped(world) && visit.id < |world.machines| && ViewOf(world, visit).Some?
    requires !Records(visit.env, world.machines[visit.id], ViewOf(world, visit).value, path, content)
    ensures (path, content) in Visited(world, visit).published + Visited(world, visit).absorbed ==>
              (path, content) in world.published + world.absorbed
  {
    var pulled := Next(world, Pull(visit.id, visit.env));
    PulledIs(world, visit.id, visit.env, ViewOf(world, visit).value);
    PullRecordsNothing(world, visit.id, visit.env);
    AttemptIs(pulled, visit.id, visit.env, Retried);
    AttemptRecords(pulled, visit.id, visit.env, Retried, path, content);
  }

  // Once a retry has thrown away the only other copy of a recorded version, the next
  // clean call replaces the file, and the version is gone.
  lemma DisplacedVersionIsLost(world: World, id: nat, env: Env, visit: Visit, path: string, content: Content)
    requires Inv(world) && Resets(world, Attempt(id, env, Retried)) && OnlyHere(world, id, path, content)
    requires env.mode == MergeMode && Clear(env.role(path))
    requires visit.id == id && CleanAt(Next(world, Attempt(id, env, Retried)), visit, path)
    ensures var end := Visited(Next(world, Attempt(id, env, Retried)), visit);
            && !Known(end, id, path, content) && Lookup(end.copies[id].clone.tree.files, path) != Some(content)
            && RemoteAt(end, path) != Some(content)
  {
    var next := Next(world, Attempt(id, env, Retried));
    ResetForgets(world, id, env, path, content);
    var machine, view := next.machines[id], next.remote.tree;
    var before := StateAt(machine, view, path);
    UnmovedIsNotMerged(visit.env.role(path), before);
    UnchangedSideOnlyPulls(visit.env.role(path), before);
    CompletedPassAgrees(visit.env.role(path), before);
    AfterAt(visit.env, machine, view, path);
    VisitedIs(next, visit);
    VisitRecords(next, visit, path, content);
  }
}
