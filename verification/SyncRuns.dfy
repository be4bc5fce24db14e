// Many machines around one repository: every run of user edits, pulls and push
// attempts, accepted, rejected or given up.
module SyncRuns {
  import opened Strings
  import opened Snapshots
  import opened ResourcePlanning
  import opened SyncPass
  import opened SyncSafety

  type Version = (string, Content)

  // A commit of the repository, and where it stands in the history.
  datatype Head = Head(tree: Tree, version: nat)

  // A machine's clone, where its upstream stands in the history, and whether the
  // machine has pulled and not yet concluded its attempt.
  datatype Copy = Copy(clone: Clone, version: nat, pulled: bool)

  // The repository's head, every machine and its clone; every file version that
  // the repository has ever held, and that git has ever committed in any clone;
  // and every version that went into a merge whose result was kept.
  datatype World = World(
    remote: Head,
    machines: seq<Machine>,
    copies: seq<Copy>,
    published: set<Version>,
    committed: set<Version>,
    absorbed: set<Version>)

  // What becomes of a commit whose push does not go through: another attempt resets
  // the clone to the head that won, the last attempt leaves it in the clone, and so
  // does a push that breaks for another reason, or is never tried because the process
  // dies, whether or not it would have gone through.
  datatype Push = Retried | Last | Broken

  // A user's edit, a commit that somebody else pushes, a pull, and the rest of an
  // attempt.
  datatype Step =
    | Edit(id: nat, path: string, content: Option<Content>)
    | Commit(tree: Tree)
    | Pull(id: nat, env: Env)
    | Attempt(id: nat, env: Env, push: Push)

  function RemoteAt(world: World, path: string): Option<Content> {
    Lookup(world.remote.tree.files, path)
  }

  predicate Shaped(world: World) {
    |world.copies| == |world.machines|
  }

  function Versions(files: Snapshot): set<Version> {
    set path | path in files :: (path, files[path])
  }

  // The versions that the merges of a pass take in. When the pass is discarded,
  // a merge result is kept only where the local file has received all of it.
  predicate Keeps(env: Env, machine: Machine, tree: Tree, discarded: bool, path: string) {
    && Merges(env.role(path), env.mode, StateAt(machine, tree, path))
    && (discarded ==> Faithful(env.role(path), env.mode, StateAt(machine, tree, path)))
  }

  function MergedInputs(env: Env, machine: Machine, tree: Tree, discarded: bool): set<Version> {
    (set path | path in machine.local && Keeps(env, machine, tree, discarded, path) :: (path, machine.local[path]))
    + (set path | path in tree.files && Keeps(env, machine, tree, discarded, path) :: (path, tree.files[path]))
  }

  function Edited(machine: Machine, path: string, content: Option<Content>): Machine {
    machine.(local := if content.Some? then machine.local[path := content.value] else machine.local - {path})
  }

  function Pushed(world: World, tree: Tree): (next: World)
    requires Shaped(world)
    ensures Shaped(next)
  {
    world.(remote := Head(tree, world.remote.version + 1),
           published := world.published + Versions(tree.files),
           committed := world.committed + Versions(tree.files))
  }

  // An attempt is over: the machine's files are written and, when it succeeded,
  // its bases saved.
  function Settled(world: World, id: nat, machine: Machine, copy: Copy, absorbed: set<Version>): (next: World)
    requires Shaped(world) && id < |world.machines|
    ensures Shaped(next)
  {
    world.(machines := world.machines[id := machine], copies := world.copies[id := copy],
           absorbed := world.absorbed + absorbed)
  }

  function PulledWorld(world: World, id: nat, view: Option<Tree>): (next: World)
    requires Shaped(world) && id < |world.machines|
    ensures Shaped(next)
  {
    if view.None? then
      world.(copies := world.copies[id := Copy(world.copies[id].clone.(stopped := true), world.copies[id].version,
                                               false)])
    else
      world.(copies := world.copies[id := Copy(Clone(view.value, world.remote.tree, false), world.remote.version,
                                               true)],
             committed := world.committed + Versions(view.value.files))
  }

  // What a pass makes of a machine and of the tree it has pulled.
  datatype Pass = Pass(tree: Tree, saved: Machine, local: Snapshot, absorbed: set<Version>, kept: set<Version>)

  function PassOf(env: Env, machine: Machine, view: Tree): Pass {
    Pass(TreeAfter(env, machine, view), MachineAfter(env, machine, view), LocalAfter(env, machine, view),
         MergedInputs(env, machine, view, false), MergedInputs(env, machine, view, true))
  }

  // Git accepts a push only on top of the commit that was pulled. With nothing to
  // commit nothing is pushed. A rejected attempt has written local files and saves
  // nothing.
  function Concluded(world: World, id: nat, pass: Pass, push: Push): (next: World)
    requires Shaped(world) && id < |world.machines|
    ensures Shaped(next) && |next.machines| == |world.machines|
  {
    var copy := world.copies[id];
    if pass.tree == copy.clone.tree then
      Settled(world, id, pass.saved, copy.(pulled := false), pass.absorbed)
    else if push != Broken && world.remote.version == copy.version then
      Pushed(Settled(world, id, pass.saved, Copy(Clone(pass.tree, pass.tree, false), copy.version + 1, false),
                     pass.absorbed), pass.tree)
    else if push != Retried then
      Settled(world, id, world.machines[id].(local := pass.local),
              Copy(Clone(pass.tree, copy.clone.upstream, false), copy.version, false), pass.absorbed)
        .(committed := world.committed + Versions(pass.tree.files))
    else
      Settled(world, id, world.machines[id].(local := pass.local),
              Copy(Clone(world.remote.tree, world.remote.tree, false), world.remote.version, false), pass.kept)
  }

  function Attempted(world: World, id: nat, env: Env, push: Push): (next: World)
    requires Shaped(world) && id < |world.machines|
    ensures Shaped(next) && |next.machines| == |world.machines|
  {
    Concluded(world, id, PassOf(env, world.machines[id], world.copies[id].clone.tree), push)
  }

  function Next(world: World, step: Step): (next: World)
    requires Shaped(world)
    ensures Shaped(next) && |next.machines| == |world.machines|
  {
    match step
    case Commit(tree) => Pushed(world, tree)
    case Edit(id, path, content) =>
      if id < |world.machines| then world.(machines :=
                                           world.machines[id := Edited(world.machines[id], path, content)]) else world
    case Pull(id, env) =>
      if id < |world.machines| then PulledWorld(world, id, Pulled(env, world.copies[id].clone, world.remote.tree))
          else world
    case Attempt(id, env, push) =>
      if id < |world.machines| && world.copies[id].pulled then Attempted(world, id, env, push) else world
  }

  function After(world: World, steps: seq<Step>): (next: World)
    requires Shaped(world)
    ensures Shaped(next) && |next.machines| == |world.machines|
  {
    if steps == [] then world else Next(After(world, steps[..|steps| - 1]), steps[|steps| - 1])
  }

  lemma AfterNext(world: World, steps: seq<Step>, step: Step)
    requires Shaped(world)
    ensures After(world, steps + [step]) == Next(After(world, steps), step)
  {
    assert (steps + [step])[..|steps|] == steps;
  }

  // New machines have no base yet and fresh clones; the repository may hold anything.
  ghost predicate Initial(world: World) {
    && Shaped(world)
    && world.published == world.committed == Versions(world.remote.tree.files)
    && (forall id :: 0 <= id < |world.machines| ==>
          world.machines[id].state == map[] && world.machines[id].store == map[])
    && (forall id :: 0 <= id < |world.copies| ==>
          world.copies[id] == Copy(Clone(world.remote.tree, world.remote.tree, false), world.remote.version, false))
  }

  // ---- What every reachable world satisfies ----

  // Every base entry has its stored merge base, and git has committed both.
  predicate BaseCommittedAt(state: Snapshot, store: Snapshot, committed: set<Version>, path: string) {
    && (path in state ==> path in store && store[path] == state[path])
    && (path in store ==> (path, store[path]) in committed)
  }

  ghost predicate BasesCommitted(machine: Machine, committed: set<Version>) {
    forall path :: BaseCommittedAt(machine.state, machine.store, committed, path)
  }

  // A clone's commits are known, and a clone at the head has the head as upstream.
  ghost predicate CopyAgrees(world: World, copy: Copy) {
    && copy.version <= world.remote.version
    && (copy.version == world.remote.version ==> copy.clone.upstream == world.remote.tree)
    && Versions(copy.clone.tree.files) <= world.committed && Versions(copy.clone.upstream.files) <= world.published
    && (copy.pulled ==> !copy.clone.stopped)
  }

  ghost predicate Inv(world: World) {
    && Shaped(world)
    && Versions(world.remote.tree.files) <= world.published <= world.committed
    && (forall id :: 0 <= id < |world.machines| ==> BasesCommitted(world.machines[id], world.committed))
    && (forall id :: 0 <= id < |world.copies| ==> CopyAgrees(world, world.copies[id]))
  }

  // Histories only grow.
  predicate Grows(before: World, after: World) {
    && before.published <= after.published && before.committed <= after.committed && before.absorbed <= after.absorbed
    && before.remote.version <= after.remote.version
    && (before.remote.version == after.remote.version ==> before.remote == after.remote)
    && |after.machines| == |before.machines| && |after.copies| == |before.copies|
  }

  lemma VersionsAt(files: Snapshot, path: string)
    ensures forall content :: (path, content) in Versions(files) <==> Lookup(files, path) == Some(content)
  {
  }

  // A completed pass keeps the bases and the store in agreement, and takes both
  // from what they were or from the commit that it leaves behind.
  lemma SavedBases(env: Env, machine: Machine, tree: Tree, committed: set<Version>)
    requires BasesCommitted(machine, committed)
    requires Versions(TreeAfter(env, machine, tree).files) <= committed
    ensures BasesCommitted(MachineAfter(env, machine, tree), committed)
  {
    forall path: string
      ensures BaseCommittedAt(MachineAfter(env, machine, tree).state, MachineAfter(env, machine, tree).store,
                              committed, path)
    {
      assert BaseCommittedAt(machine.state, machine.store, committed, path);
      SavedBaseAt(env, machine, tree, committed, path);
    }
  }

  lemma SavedBaseAt(env: Env, machine: Machine, tree: Tree, committed: set<Version>, path: string)
    requires BaseCommittedAt(machine.state, machine.store, committed, path)
    requires Versions(TreeAfter(env, machine, tree).files) <= committed
    ensures BaseCommittedAt(MachineAfter(env, machine, tree).state, MachineAfter(env, machine, tree).store, committed,
                            path)
  {
    AfterAt(env, machine, tree, path);
    VersionsAt(TreeAfter(env, machine, tree).files, path);
    KeptOrRecorded(env.role(path), env.mode, StateAt(machine, tree, path));
    var saved := MachineAfter(env, machine, tree);
    assert Lookup(saved.state, path) == NextEntry(env, machine, tree, path);
    assert Lookup(saved.store, path) == NextStored(env, machine, tree, path);
  }

  // The next base entry and merge base are both the old ones, or both the
  // repository's content.
  lemma KeptOrRecorded(role: Role, mode: FirstSyncMode, before: PathState)
    ensures var file := CellAfter(role, mode, before).file;
            var entry, stored := EntryAfter(role, mode, before), StoredAfter(role, mode, before);
            || ((entry.None? || entry == before.entry) && stored == before.stored)
            || (entry == stored && (stored.None? || stored == file))
  {
  }

  lemma BasesStayCommitted(machine: Machine, local: Snapshot, fewer: set<Version>, more: set<Version>)
    requires BasesCommitted(machine, fewer) && fewer <= more
    ensures BasesCommitted(machine, more) && BasesCommitted(machine.(local := local), more)
  {
    forall path: string
      ensures BaseCommittedAt(machine.state, machine.store, more, path)
    {
      assert BaseCommittedAt(machine.state, machine.store, fewer, path);
    }
  }

  // A machine and its clone change while the histories grow.
  lemma ChangeKeepsInv(world: World, next: World, id: nat)
    requires Inv(world) && Grows(world, next) && id < |world.machines|
    requires Versions(next.remote.tree.files) <= next.published <= next.committed
    requires next.machines == world.machines[id := next.machines[id]]
             && next.copies == world.copies[id := next.copies[id]]
    requires BasesCommitted(next.machines[id], next.committed) && CopyAgrees(next, next.copies[id])
    ensures Inv(next)
  {
    forall other | 0 <= other < |next.machines|
      ensures BasesCommitted(next.machines[other], next.committed)
      ensures CopyAgrees(next, next.copies[other])
    {
      if other != id {
        BasesStayCommitted(world.machines[other], world.machines[other].local, world.committed, next.committed);
      }
    }
  }

  lemma CommitKeepsInv(world: World, tree: Tree)
    requires Inv(world)
    ensures Inv(Pushed(world, tree)) && Grows(world, Pushed(world, tree))
  {
    var next := Pushed(world, tree);
    forall id | 0 <= id < |next.machines|
      ensures BasesCommitted(next.machines[id], next.committed)
    {
      BasesStayCommitted(world.machines[id], world.machines[id].local, world.committed, next.committed);
    }
  }

  lemma PullKeepsInv(world: World, id: nat, view: Option<Tree>)
    requires Inv(world) && id < |world.machines|
    ensures Inv(PulledWorld(world, id, view)) && Grows(world, PulledWorld(world, id, view))
  {
    var next := PulledWorld(world, id, view);
    BasesStayCommitted(world.machines[id], world.machines[id].local, world.committed, next.committed);
    ChangeKeepsInv(world, next, id);
  }

  lemma ConcludedKeepsInv(world: World, id: nat, pass: Pass, push: Push)
    requires Inv(world) && id < |world.machines|
    requires BasesCommitted(pass.saved, world.committed + Versions(pass.tree.files))
    ensures Inv(Concluded(world, id, pass, push)) && Grows(world, Concluded(world, id, pass, push))
  {
    var copy, next := world.copies[id], Concluded(world, id, pass, push);
    if pass.tree == copy.clone.tree {
      assert world.committed + Versions(pass.tree.files) == world.committed;
    }
    BasesStayCommitted(world.machines[id], pass.local, world.committed, next.committed);
    ChangeKeepsInv(world, next, id);
  }

  lemma AttemptKeepsInv(world: World, id: nat, env: Env, push: Push)
    requires Inv(world) && id < |world.machines|
    ensures Inv(Attempted(world, id, env, push)) && Grows(world, Attempted(world, id, env, push))
  {
    var machine, view := world.machines[id], world.copies[id].clone.tree;
    var more := world.committed + Versions(TreeAfter(env, machine, view).files);
    BasesStayCommitted(machine, machine.local, world.committed, more);
    SavedBases(env, machine, view, more);
    ConcludedKeepsInv(world, id, PassOf(env, machine, view), push);
  }

  lemma StepKeepsInv(world: World, step: Step)
    requires Inv(world)
    ensures Inv(Next(world, step)) && Grows(world, Next(world, step))
  {
    match step
    case Commit(tree) => CommitKeepsInv(world, tree);
    case Edit(id, path, content) =>
      if id < |world.machines| {
        var next := Next(world, step);
        BasesStayCommitted(world.machines[id], next.machines[id].local, world.committed, world.committed);
        ChangeKeepsInv(world, next, id);
      }
    case Pull(id, env) =>
      if id < |world.machines| {
        PullKeepsInv(world, id, Pulled(env, world.copies[id].clone, world.remote.tree));
      }
    case Attempt(id, env, push) =>
      if id < |world.machines| && world.copies[id].pulled {
        AttemptKeepsInv(world, id, env, push);
      }
  }

  lemma {:induction false} RunKeepsInv(world: World, steps: seq<Step>)
    requires Initial(world)
    ensures Inv(After(world, steps)) && Grows(world, After(world, steps))
  {
    if steps != [] {
      RunKeepsInv(world, steps[..|steps| - 1]);
      StepKeepsInv(After(world, steps[..|steps| - 1]), steps[|steps| - 1]);
    }
  }

  // ---- Runs without unpushed commits ----

  // No clone holds a commit that it has not pushed, and so everything that was
  // ever committed has been in the repository.
  ghost predicate AllPublished(world: World) {
    && world.published == world.committed
    && (forall id :: 0 <= id < |world.copies| ==> NothingUnpushed(world.copies[id].clone))
  }

  // The attempt leaves a commit in the clone that it has not pushed.
  predicate LeavesCommit(world: World, id: nat, pass: Pass, push: Push)
    requires Shaped(world) && id < |world.machines|
  {
    && pass.tree != world.copies[id].clone.tree
    && (push == Broken || (push == Last && world.copies[id].version != world.remote.version))
  }

  // The step gives up: its last push is rejected, or its push breaks.
  predicate GivesUp(world: World, step: Step)
    requires Shaped(world)
  {
    && step.Attempt? && step.id < |world.machines| && world.copies[step.id].pulled
    && LeavesCommit(world, step.id,
                    PassOf(step.env, world.machines[step.id], world.copies[step.id].clone.tree), step.push)
  }

  lemma ConcludedKeepsPublished(world: World, id: nat, pass: Pass, push: Push)
    requires Inv(world) && AllPublished(world) && id < |world.machines|
    requires !LeavesCommit(world, id, pass, push)
    ensures AllPublished(Concluded(world, id, pass, push))
  {
  }

  lemma PullKeepsPublished(world: World, id: nat, env: Env)
    requires Inv(world) && AllPublished(world) && id < |world.machines|
    ensures AllPublished(Next(world, Pull(id, env)))
    ensures Next(world, Pull(id, env)).copies[id].clone.tree == world.remote.tree
  {
    assert NothingUnpushed(world.copies[id].clone);
    assert world.committed + Versions(world.remote.tree.files) == world.committed;
  }

  // A clone gets unpushed commits only from a step that gives up.
  lemma StepKeepsPublished(world: World, step: Step)
    requires Inv(world) && AllPublished(world) && !GivesUp(world, step)
    ensures AllPublished(Next(world, step))
  {
    match step
    case Commit(_) =>
    case Edit(_, _, _) =>
    case Pull(id, env) =>
      if id < |world.machines| {
        PullKeepsPublished(world, id, env);
      }
    case Attempt(id, env, push) =>
      if id < |world.machines| && world.copies[id].pulled {
        ConcludedKeepsPublished(world, id, PassOf(env, world.machines[id], world.copies[id].clone.tree), push);
      }
  }

  // As long as no step gives up, every base of every machine has been in the
  // repository.
  lemma {:induction false} RunKeepsPublished(world: World, steps: seq<Step>)
    requires Initial(world)
    requires forall i :: 0 <= i < |steps| ==> !GivesUp(After(world, steps[..i]), steps[i])
    ensures AllPublished(After(world, steps))
  {
    if steps != [] {
      var front, step := steps[..|steps| - 1], steps[|steps| - 1];
      forall i | 0 <= i < |front|
        ensures !GivesUp(After(world, front[..i]), front[i])
      {
        assert front[..i] == steps[..i];
      }
      RunKeepsPublished(world, front);
      RunKeepsInv(world, front);
      StepKeepsPublished(After(world, front), step);
    }
  }

  // ---- Every call of the engine is such a run ----

  function PushOf(attempts: nat): (push: Push)
    ensures push != Broken
  {
    if attempts <= 1 then Last else Retried
  }

  // A pull, the push of somebody else, and an attempt that it beats.
  function Beaten(world: World, id: nat, env: Env, push: Push, race: Tree): (next: World)
    requires Shaped(world) && id < |world.machines|
    ensures Shaped(next) && |next.machines| == |world.machines|
  {
    Next(Next(Next(world, Pull(id, env)), Commit(race)), Attempt(id, env, push))
  }

  // A call as steps of the world, the competing pushes included.
  function Called(world: World, id: nat, env: Env, attempts: nat, races: seq<Tree>): (next: World)
    requires Shaped(world) && id < |world.machines|
    ensures Shaped(next) && |next.machines| == |world.machines|
    decreases |races|
  {
    var pulled := Next(world, Pull(id, env));
    if !pulled.copies[id].pulled then pulled
    else if races == [] || TreeAfter(env, world.machines[id], pulled.copies[id].clone.tree)
        == pulled.copies[id].clone.tree then
      Next(pulled, Attempt(id, env, PushOf(attempts)))
    else if attempts <= 1 then Beaten(world, id, env, Last, races[0])
    else Called(Beaten(world, id, env, Retried, races[0]), id, env, attempts - 1, races[1..])
  }

  // The part of a world that a call of one machine works on.
  datatype Core = Core(machine: Machine, clone: Clone, head: Tree)

  function CoreOf(world: World, id: nat): Core
    requires Shaped(world) && id < |world.machines|
  {
    Core(world.machines[id], world.copies[id].clone, world.remote.tree)
  }

  lemma ConcludedCore(world: World, id: nat, pass: Pass, push: Push)
    requires Shaped(world) && id < |world.machines|
    ensures var copy, written := world.copies[id], world.machines[id].(local := pass.local);
            CoreOf(Concluded(world, id, pass, push), id)
            == if pass.tree == copy.clone.tree then Core(pass.saved, copy.clone, world.remote.tree)
               else if push != Broken && world.remote.version == copy.version
                   then Core(pass.saved, Clone(pass.tree, pass.tree, false), pass.tree)
               else if push != Retried then Core(written, Clone(pass.tree, copy.clone.upstream, false),
                                                 world.remote.tree)
               else Core(written, Clone(world.remote.tree, world.remote.tree, false), world.remote.tree)
  {
  }

  lemma PulledIs(world: World, id: nat, env: Env, view: Tree)
    requires Shaped(world) && id < |world.machines| && Pulled(env, world.copies[id].clone, world.remote.tree)
             == Some(view)
    ensures var next := Next(world, Pull(id, env));
            && next.machines == world.machines && next.remote == world.remote
            && next.copies[id] == Copy(Clone(view, world.remote.tree, false), world.remote.version, true)
  {
  }

  lemma AttemptedIs(world: World, id: nat, env: Env, push: Push)
    requires Shaped(world) && id < |world.machines|
    ensures Attempted(world, id, env, push)
         == Concluded(world, id, PassOf(env, world.machines[id], world.copies[id].clone.tree), push)
  {
  }

  lemma AttemptIs(world: World, id: nat, env: Env, push: Push)
    requires Shaped(world) && id < |world.machines| && world.copies[id].pulled
    ensures Next(world, Attempt(id, env, push)) == Attempted(world, id, env, push)
  {
  }

  lemma ConcludedOnHead(world: World, id: nat, pass: Pass, push: Push)
    requires Shaped(world) && id < |world.machines| && !world.copies[id].clone.stopped && push != Broken
    requires world.copies[id].version == world.remote.version && world.copies[id].clone.upstream == world.remote.tree
    ensures CoreOf(Concluded(world, id, pass, push), id)
         == if pass.tree == world.copies[id].clone.tree
             then Core(pass.saved, Clone(pass.tree, world.remote.tree, false), world.remote.tree)
            else Core(pass.saved, Clone(pass.tree, pass.tree, false), pass.tree)
  {
    ConcludedCore(world, id, pass, push);
  }

  lemma ConcludedBeaten(world: World, id: nat, pass: Pass, push: Push)
    requires Shaped(world) && id < |world.machines|
    requires world.copies[id].version != world.remote.version && pass.tree != world.copies[id].clone.tree
    ensures CoreOf(Concluded(world, id, pass, push), id)
         == Core(world.machines[id].(local := pass.local),
                 if push != Retried then Clone(pass.tree, world.copies[id].clone.upstream, false)
                 else Clone(world.remote.tree, world.remote.tree, false), world.remote.tree)
  {
    ConcludedCore(world, id, pass, push);
  }

  lemma OutcomeIs(env: Env, attempts: nat, core: Core, races: seq<Tree>, view: Tree)
    requires Pulled(env, core.clone, core.head) == Some(view)
    ensures var outcome := SyncOutcome(env, attempts, core.machine, core.clone, core.head, races);
            var pass := PassOf(env, core.machine, view);
            var written := core.machine.(local := pass.local);
            outcome == if pass.tree == view
                then Outcome(Synced(false), pass.saved, Clone(view, core.head, false), core.head)
                       else if races == [] then Outcome(Synced(true), pass.saved, Clone(pass.tree, pass.tree, false),
                                                        pass.tree)
                       else if attempts <= 1 then Outcome(PushFailed, written, Clone(pass.tree, core.head, false),
                                                          races[0])
                       else SyncOutcome(env, attempts - 1, written, Clone(races[0], races[0], false), races[0],
                                        races[1..])
  {
  }

  lemma CalledIs(world: World, id: nat, env: Env, attempts: nat, races: seq<Tree>)
    requires Shaped(world) && id < |world.machines| && Next(world, Pull(id, env)).copies[id].pulled
    ensures var pulled := Next(world, Pull(id, env));
            var view := pulled.copies[id].clone.tree;
            Called(world, id, env, attempts, races)
            == if races == [] || TreeAfter(env, world.machines[id], view) == view
                then Next(pulled, Attempt(id, env, PushOf(attempts)))
               else if attempts <= 1 then Beaten(world, id, env, Last, races[0])
               else Called(Beaten(world, id, env, Retried, races[0]), id, env, attempts - 1, races[1..])
  {
  }

  // What the engine's call leaves behind is what these steps leave behind.
  ghost predicate CallAgrees(world: World, id: nat, env: Env, attempts: nat, races: seq<Tree>)
    requires Shaped(world) && id < |world.machines|
  {
    var core := CoreOf(world, id);
    var outcome := SyncOutcome(env, attempts, core.machine, core.clone, core.head, races);
    CoreOf(Called(world, id, env, attempts, races), id) == Core(outcome.machine, outcome.clone, outcome.head)
  }

  lemma UndisturbedAgrees(world: World, id: nat, env: Env, attempts: nat, races: seq<Tree>, view: Tree)
    requires Shaped(world) && id < |world.machines| && Pulled(env, world.copies[id].clone, world.remote.tree)
             == Some(view)
    requires races == [] || TreeAfter(env, world.machines[id], view) == view
    ensures CallAgrees(world, id, env, attempts, races)
  {
    PulledIs(world, id, env, view);
    OutcomeIs(env, attempts, CoreOf(world, id), races, view);
    CalledIs(world, id, env, attempts, races);
    var pulled := Next(world, Pull(id, env));
    AttemptIs(pulled, id, env, PushOf(attempts));
    AttemptedIs(pulled, id, env, PushOf(attempts));
    ConcludedOnHead(pulled, id, PassOf(env, world.machines[id], view), PushOf(attempts));
  }

  lemma BeatenIs(world: World, id: nat, env: Env, push: Push, race: Tree, view: Tree)
    requires Shaped(world) && id < |world.machines| && Pulled(env, world.copies[id].clone, world.remote.tree)
             == Some(view)
    requires TreeAfter(env, world.machines[id], view) != view
    ensures var pass := PassOf(env, world.machines[id], view);
            CoreOf(Beaten(world, id, env, push, race), id)
            == Core(world.machines[id].(local := pass.local),
                    if push != Retried then Clone(pass.tree, world.remote.tree, false)
                        else Clone(race, race, false), race)
  {
    PulledIs(world, id, env, view);
    var raced := Next(Next(world, Pull(id, env)), Commit(race));
    AttemptIs(raced, id, env, push);
    AttemptedIs(raced, id, env, push);
    ConcludedBeaten(raced, id, PassOf(env, world.machines[id], view), push);
  }

  lemma BeatenAgrees(world: World, id: nat, env: Env, attempts: nat, races: seq<Tree>, view: Tree)
    requires Shaped(world) && id < |world.machines| && Pulled(env, world.copies[id].clone, world.remote.tree)
             == Some(view)
    requires races != [] && TreeAfter(env, world.machines[id], view) != view
    requires attempts > 1 ==> CallAgrees(Beaten(world, id, env, Retried, races[0]), id, env, attempts - 1, races[1..])
    ensures CallAgrees(world, id, env, attempts, races)
  {
    PulledIs(world, id, env, view);
    OutcomeIs(env, attempts, CoreOf(world, id), races, view);
    CalledIs(world, id, env, attempts, races);
    BeatenIs(world, id, env, PushOf(attempts), races[0], view);
  }

  lemma {:induction false} CallIsRun(world: World, id: nat, env: Env, attempts: nat, races: seq<Tree>)
    requires Shaped(world) && id < |world.machines|
    ensures CallAgrees(world, id, env, attempts, races)
    decreases |races|
  {
    match Pulled(env, world.copies[id].clone, world.remote.tree)
    case None =>
    case Some(view) =>
      if races == [] || TreeAfter(env, world.machines[id], view) == view {
        UndisturbedAgrees(world, id, env, attempts, races, view);
      } else {
        if attempts > 1 {
          CallIsRun(Beaten(world, id, env, Retried, races[0]), id, env, attempts - 1, races[1..]);
        }
        BeatenAgrees(world, id, env, attempts, races, view);
      }
  }
}
