// A run in which a machine's unpushed commit breaks both promises: a reachable
// world that never converges, and a push that overwrites what was never the base.
module SyncStranded {
  import opened Strings
  import opened Snapshots
  import opened ResourcePlanning
  import opened SyncPass
  import opened SyncSafety
  import opened SyncRuns
  import opened SyncRunSafety
  import opened SyncRetention
  import opened SyncConvergence

  // ---- Passes of plain machines ----

  // Of two sides, of which one holds the base or both are equal, the one that moved.
  function Agreed(before: PathState): Option<Content> {
    if before.local == before.entry then before.file else before.local
  }

  predicate OneMoved(before: PathState) {
    && before.stored == before.entry && before.conflict.None?
    && (before.local == before.entry || before.file == before.entry || before.local == before.file)
  }

  lemma PlainPass(before: PathState)
    requires OneMoved(before)
    ensures CellAfter(PLAIN, MergeMode, before) == Cell(Agreed(before), Agreed(before), None, false)
    ensures EntryAfter(PLAIN, MergeMode, before) == Agreed(before) == StoredAfter(PLAIN, MergeMode, before)
    ensures !Merges(PLAIN, MergeMode, before)
  {
  }

  ghost predicate Yields(machine: Machine, view: Tree, files: Snapshot) {
    forall path :: OneMoved(StateAt(machine, view, path)) && Lookup(files, path) == Agreed(StateAt(machine, view, path))
  }

  ghost predicate IsPlain(env: Env) {
    env.mode == MergeMode && forall path :: env.role(path) == PLAIN
  }

  // A plain pass whose every path agrees ends with the same files everywhere.
  lemma PlainPassIs(env: Env, machine: Machine, view: Tree, files: Snapshot)
    requires IsPlain(env) && Yields(machine, view, files)
    ensures TreeAfter(env, machine, view) == Tree(files, map[]) && LocalAfter(env, machine, view) == files
    ensures MachineAfter(env, machine, view) == Machine(files, files, files)
  {
    var none: map<string, Bundle> := map[];
    forall path: string
      ensures PassCell(env, machine, view, path) == Cell(Lookup(files, path), Lookup(files, path), Lookup(none, path),
                                                         false)
      ensures NextEntry(env, machine, view, path) == Lookup(files, path) == NextStored(env, machine, view, path)
    {
      PlainPass(StateAt(machine, view, path));
    }
    AfterIs(env, machine, view, files, files, none);
    SavedIs(env, machine, view, Machine(files, files, files));
  }

  // ---- Steps of a world with one machine ----

  lemma PlainPull(world: World, env: Env, view: Tree)
    requires Shaped(world) && |world.machines| == 1 && Pulled(env, world.copies[0].clone, world.remote.tree)
             == Some(view)
    ensures var next := Next(world, Pull(0, env));
            && next.machines == world.machines && next.remote == world.remote
            && next.published == world.published && next.absorbed == world.absorbed
            && next.copies == [Copy(Clone(view, world.remote.tree, false), world.remote.version, true)]
  {
  }

  lemma PlainEdit(world: World, path: string, content: Content)
    requires Shaped(world) && |world.machines| == 1
    ensures var machine, next := world.machines[0], Next(world, Edit(0, path, Some(content)));
            && next.machines == [machine.(local := machine.local[path := content])]
            && next.copies == world.copies && next.remote == world.remote
            && next.published == world.published && next.absorbed == world.absorbed
  {
  }

  lemma PlainPassAbsorbs(env: Env, machine: Machine, view: Tree, files: Snapshot, discarded: bool)
    requires IsPlain(env) && Yields(machine, view, files)
    ensures MergedInputs(env, machine, view, discarded) == {}
  {
    forall path: string
      ensures !Keeps(env, machine, view, discarded, path)
    {
      PlainPass(StateAt(machine, view, path));
    }
  }

  lemma ConcludedIs(world: World, pass: Pass, push: Push)
    requires Shaped(world) && |world.machines| == 1 && push != Broken && pass.absorbed == pass.kept == {}
    ensures var copy, next := world.copies[0], Concluded(world, 0, pass, push);
            next.absorbed == world.absorbed &&
            if pass.tree == copy.clone.tree then
              && next.machines == [pass.saved] && next.copies == [copy.(pulled := false)]
              && next.remote == world.remote && next.published == world.published
            else if world.remote.version == copy.version then
              && next.machines == [pass.saved] && next.remote == Head(pass.tree, world.remote.version + 1)
              && next.copies == [Copy(Clone(pass.tree, pass.tree, false), copy.version + 1, false)]
              && next.published == world.published + Versions(pass.tree.files)
            else
              && next.machines == [world.machines[0].(local := pass.local)]
              && next.remote == world.remote && next.published == world.published
              && next.copies == [if push == Last
                                 then Copy(Clone(pass.tree, copy.clone.upstream, false), copy.version, false)
                                 else Copy(Clone(world.remote.tree, world.remote.tree, false), world.remote.version,
                                           false)]
  {
  }

  lemma PlainAttempt(world: World, env: Env, push: Push, files: Snapshot)
    requires Shaped(world) && |world.machines| == 1 && world.copies[0].pulled && push != Broken
    requires IsPlain(env) && Yields(world.machines[0], world.copies[0].clone.tree, files)
    ensures var copy, tree, next := world.copies[0], Tree(files, map[]), Next(world, Attempt(0, env, push));
            next.absorbed == world.absorbed &&
            if tree == copy.clone.tree then
              && next.machines == [Machine(files, files, files)] && next.copies == [copy.(pulled := false)]
              && next.remote == world.remote && next.published == world.published
            else if world.remote.version == copy.version then
              && next.machines == [Machine(files, files, files)] && next.remote == Head(tree, world.remote.version + 1)
              && next.copies == [Copy(Clone(tree, tree, false), copy.version + 1, false)]
              && next.published == world.published + Versions(files)
            else
              && next.machines == [world.machines[0].(local := files)]
              && next.remote == world.remote && next.published == world.published
              && next.copies == [if push == Last then Copy(Clone(tree, copy.clone.upstream, false), copy.version, false)
                                 else Copy(Clone(world.remote.tree, world.remote.tree, false), world.remote.version,
                                           false)]
  {
    PlainPassIs(env, world.machines[0], world.copies[0].clone.tree, files);
    PlainPassAbsorbs(env, world.machines[0], world.copies[0].clone.tree, files, false);
    PlainPassAbsorbs(env, world.machines[0], world.copies[0].clone.tree, files, true);
    AttemptIs(world, 0, env, push);
    AttemptedIs(world, 0, env, push);
    ConcludedIs(world, PassOf(env, world.machines[0], world.copies[0].clone.tree), push);
  }

  // ---- The run ----

  const OLD := Bytes("0")
  const NEW := Bytes("1")
  const THEIRS := Bytes("2")

  const BEFORE: Snapshot := map["mine" := OLD]
  const EDITED: Snapshot := map["mine" := NEW]
  const RIVAL: Snapshot := map["mine" := OLD, "theirs" := THEIRS]
  const REPLAYED: Snapshot := map["mine" := NEW, "theirs" := THEIRS]
  const EXTENDED: Snapshot := map["mine" := NEW, "theirs" := THEIRS, "other" := OLD]

  // Git replays the edit of one file on top of the commit of another.
  function RunEnv(): Env {
    Env(path => PLAIN, MergeMode, (upstream, tree, head) => Some(Tree(REPLAYED, map[])))
  }

  function Start(): World {
    var tree := Tree(BEFORE, map[]);
    World(Head(tree, 0), [Machine(map[], map[], map[])], [Copy(Clone(tree, tree, false), 0, false)],
          Versions(BEFORE), Versions(BEFORE), {})
  }

  // The new version of the machine's file has been in no repository and no merge.
  predicate Unheard(world: World) {
    ("mine", NEW) !in world.published + world.absorbed
  }

  // Where the world's one machine, its clone and the repository are.
  predicate Stands(world: World, machine: Machine, clone: Clone, version: nat, head: Head) {
    && world.machines == [machine] && world.copies == [Copy(clone, version, false)] && world.remote == head
    && Unheard(world)
  }

  function Plain(files: Snapshot): Tree {
    Tree(files, map[])
  }

  function Recorded(files: Snapshot): Machine {
    Machine(files, files, files)
  }

  // A call that no other push disturbs.
  function Quiet(world: World): World
    requires Shaped(world)
  {
    Next(Next(world, Pull(0, RunEnv())), Attempt(0, RunEnv(), Retried))
  }

  // The machine synchronizes for the first time,
  lemma SynchronizedStands()
    ensures Stands(Quiet(Start()), Recorded(BEFORE), Clone(Plain(BEFORE), Plain(BEFORE), false), 0,
                   Head(Plain(BEFORE), 0))
  {
    PlainPull(Start(), RunEnv(), Plain(BEFORE));
    assert Yields(Machine(map[], map[], map[]), Plain(BEFORE), BEFORE);
    PlainAttempt(Next(Start(), Pull(0, RunEnv())), RunEnv(), Retried, BEFORE);
  }

  // its user edits a file, another commit arrives between its pull and its push,
  // and it gives up;
  function GaveUp(world: World): World
    requires Shaped(world)
  {
    var edited := Next(world, Edit(0, "mine", Some(NEW)));
    Next(Next(Next(edited, Pull(0, RunEnv())), Commit(Plain(RIVAL))), Attempt(0, RunEnv(), Last))
  }

  lemma GaveUpStands(world: World)
    requires Stands(world, Recorded(BEFORE), Clone(Plain(BEFORE), Plain(BEFORE), false), 0, Head(Plain(BEFORE), 0))
    ensures Stands(GaveUp(world), Machine(EDITED, BEFORE, BEFORE), Clone(Plain(EDITED), Plain(BEFORE), false), 0,
                   Head(Plain(RIVAL), 1))
  {
    var edited := Next(world, Edit(0, "mine", Some(NEW)));
    PlainEdit(world, "mine", NEW);
    assert BEFORE["mine" := NEW] == EDITED;
    PlainPull(edited, RunEnv(), Plain(BEFORE));
    var raced := Next(Next(edited, Pull(0, RunEnv())), Commit(Plain(RIVAL)));
    assert Yields(Machine(EDITED, BEFORE, BEFORE), Plain(BEFORE), EDITED);
    assert EDITED["mine"] != BEFORE["mine"];
    PlainAttempt(raced, RunEnv(), Last, EDITED);
  }

  // its next synchronization reports success;
  lemma ReportedStands(world: World)
    requires Stands(world, Machine(EDITED, BEFORE, BEFORE), Clone(Plain(EDITED), Plain(BEFORE), false), 0,
                    Head(Plain(RIVAL), 1))
    ensures Stands(Quiet(world), Recorded(REPLAYED), Clone(Plain(REPLAYED), Plain(RIVAL), false), 1,
                   Head(Plain(RIVAL), 1))
  {
    assert EDITED["mine"] != BEFORE["mine"];
    PlainPull(world, RunEnv(), Plain(REPLAYED));
    assert Yields(Machine(EDITED, BEFORE, BEFORE), Plain(REPLAYED), REPLAYED);
    PlainAttempt(Next(world, Pull(0, RunEnv())), RunEnv(), Retried, REPLAYED);
  }

  // and after another edit it is about to push again.
  function Resumed(world: World): World
    requires Shaped(world)
  {
    Next(Next(world, Edit(0, "other", Some(OLD))), Pull(0, RunEnv()))
  }

  predicate IsResumed(world: World) {
    && world.machines == [Machine(EXTENDED, REPLAYED, REPLAYED)]
    && world.copies == [Copy(Clone(Plain(REPLAYED), Plain(RIVAL), false), 1, true)]
    && world.remote == Head(Plain(RIVAL), 1) && Unheard(world)
  }

  lemma ResumedStands(world: World)
    requires Stands(world, Recorded(REPLAYED), Clone(Plain(REPLAYED), Plain(RIVAL), false), 1, Head(Plain(RIVAL), 1))
    ensures IsResumed(Resumed(world))
  {
    assert REPLAYED["mine"] != RIVAL["mine"];
    var edited := Next(world, Edit(0, "other", Some(OLD)));
    PlainEdit(world, "other", OLD);
    assert REPLAYED["other" := OLD] == EXTENDED;
    PlainPull(edited, RunEnv(), Plain(REPLAYED));
  }

  lemma LastPushOverwrites(world: World)
    requires IsResumed(world)
    ensures RemoteAt(Next(world, Attempt(0, RunEnv(), Retried)), "mine") == Some(NEW)
    ensures !RemoteSafe(world, Attempt(0, RunEnv(), Retried), "mine")
  {
    assert Yields(Machine(EXTENDED, REPLAYED, REPLAYED), Plain(REPLAYED), EXTENDED);
    assert "other" in EXTENDED && "other" !in REPLAYED;
    PlainAttempt(world, RunEnv(), Retried, EXTENDED);
  }

  // Or yet another commit arrives, and the retry resets the clone.
  const LATER: Snapshot := map["mine" := OLD, "theirs" := NEW]
  const FORGOTTEN: Snapshot := map["mine" := OLD, "theirs" := NEW, "other" := OLD]

  lemma RetryResets(world: World)
    requires IsResumed(world)
    ensures var raced := Next(world, Commit(Plain(LATER)));
            && Displaces(raced, Attempt(0, RunEnv(), Retried), "mine")
            && Stands(Next(raced, Attempt(0, RunEnv(), Retried)), Machine(EXTENDED, REPLAYED, REPLAYED),
                      Clone(Plain(LATER), Plain(LATER), false), 2, Head(Plain(LATER), 2))
  {
    assert Yields(Machine(EXTENDED, REPLAYED, REPLAYED), Plain(REPLAYED), EXTENDED);
    assert "other" in EXTENDED && "other" !in REPLAYED;
    PlainAttempt(Next(world, Commit(Plain(LATER))), RunEnv(), Retried, EXTENDED);
  }

  lemma NextCallForgets(world: World)
    requires Stands(world, Machine(EXTENDED, REPLAYED, REPLAYED), Clone(Plain(LATER), Plain(LATER), false), 2,
                    Head(Plain(LATER), 2))
    ensures Stands(Quiet(world), Recorded(FORGOTTEN), Clone(Plain(FORGOTTEN), Plain(FORGOTTEN), false), 3,
                   Head(Plain(FORGOTTEN), 3))
  {
    PlainPull(world, RunEnv(), Plain(LATER));
    assert Yields(Machine(EXTENDED, REPLAYED, REPLAYED), Plain(LATER), FORGOTTEN);
    assert "other" in FORGOTTEN && "other" !in LATER;
    PlainAttempt(Next(world, Pull(0, RunEnv())), RunEnv(), Retried, FORGOTTEN);
  }

  const EARLY := [Pull(0, RunEnv()), Attempt(0, RunEnv(), Retried), Edit(0, "mine", Some(NEW)), Pull(0, RunEnv()),
                  Commit(Plain(RIVAL)), Attempt(0, RunEnv(), Last), Pull(0, RunEnv()), Attempt(0, RunEnv(), Retried)]

  lemma {:induction false} EarlyRun()
    ensures After(Start(), EARLY) == Quiet(GaveUp(Quiet(Start())))
  {
    RunOf(Start(), EARLY[..2], EARLY[2], EARLY[3]);
    RunOf(Start(), EARLY[..4], EARLY[4], EARLY[5]);
    RunOf(Start(), EARLY[..6], EARLY[6], EARLY[7]);
    RunOf(Start(), [], EARLY[0], EARLY[1]);
    assert EARLY[..2] == [] + [EARLY[0]] + [EARLY[1]] && EARLY[..4] == EARLY[..2] + [EARLY[2]] + [EARLY[3]];
    assert EARLY[..6] == EARLY[..4] + [EARLY[4]] + [EARLY[5]] && EARLY == EARLY[..6] + [EARLY[6]] + [EARLY[7]];
  }

  lemma EarlyRunStands()
    ensures Stands(After(Start(), EARLY), Recorded(REPLAYED), Clone(Plain(REPLAYED), Plain(RIVAL), false), 1,
                   Head(Plain(RIVAL), 1))
  {
    EarlyRun();
    SynchronizedStands();
    GaveUpStands(Quiet(Start()));
    ReportedStands(GaveUp(Quiet(Start())));
  }

  lemma RunOf(world: World, steps: seq<Step>, one: Step, other: Step)
    requires Shaped(world)
    ensures After(world, steps + [one] + [other]) == Next(Next(After(world, steps), one), other)
  {
    AfterNext(world, steps, one);
    AfterNext(world, steps + [one], other);
  }

  // A machine whose only attempt is beaten by another commit: its next call reports
  // success and records its file, but the repository never received it.
  lemma LastAttemptCanLoseAPush()
    ensures var first := SyncOutcome(RunEnv(), 1, Machine(EDITED, BEFORE, BEFORE),
                                     Clone(Plain(BEFORE), Plain(BEFORE), false), Plain(BEFORE), [Plain(RIVAL)]);
            var second := SyncOutcome(RunEnv(), 3, first.machine, first.clone, first.head, []);
            && first.result == PushFailed && second.result == Synced(false)
            && Lookup(second.machine.state, "mine") == Some(NEW) && Lookup(second.head.files, "mine") == Some(OLD)
  {
    var machine := Machine(EDITED, BEFORE, BEFORE);
    assert EDITED["mine"] != BEFORE["mine"];
    assert Yields(machine, Plain(BEFORE), EDITED);
    PlainPassIs(RunEnv(), machine, Plain(BEFORE), EDITED);
    assert Yields(machine, Plain(REPLAYED), REPLAYED);
    PlainPassIs(RunEnv(), machine, Plain(REPLAYED), REPLAYED);
    var first := SyncOutcome(RunEnv(), 1, machine, Clone(Plain(BEFORE), Plain(BEFORE), false), Plain(BEFORE),
                             [Plain(RIVAL)]);
    assert first == Outcome(PushFailed, machine, Clone(Plain(EDITED), Plain(BEFORE), false), Plain(RIVAL));
  }

  lemma ReportedIsStranded(world: World)
    requires Stands(world, Recorded(REPLAYED), Clone(Plain(REPLAYED), Plain(RIVAL), false), 1, Head(Plain(RIVAL), 1))
    ensures Stranded(world, Visit(0, RunEnv()), "mine")
  {
    assert Yields(Recorded(REPLAYED), Plain(REPLAYED), REPLAYED);
    PlainPassIs(RunEnv(), Recorded(REPLAYED), Plain(REPLAYED), REPLAYED);
    assert REPLAYED["mine"] != RIVAL["mine"];
  }

  // A reachable world whose machine never gets in step again, however often it
  // synchronizes, although every synchronization reports success.
  lemma ConvergenceCanFail()
    ensures Initial(Start()) && Stranded(After(Start(), EARLY), Visit(0, RunEnv()), "mine")
  {
    EarlyRunStands();
    ReportedIsStranded(After(Start(), EARLY));
  }

  // From there one more edit of another file makes a push that overwrites the
  // repository's version, which never was the machine's base, without any merge.
  lemma SafetyCanFail()
    ensures Initial(Start())
    ensures var world := Resumed(After(Start(), EARLY));
            var push := Attempt(0, RunEnv(), Retried);
            && IsEngineStep(world, push) && GuardedStep(world, push, "mine")
            && RemoteAt(world, "mine") == Some(OLD) && Lookup(world.machines[0].state, "mine") == Some(NEW)
            && RemoteAt(Next(world, push), "mine") == Some(NEW) && !RemoteSafe(world, push, "mine")
  {
    EarlyRunStands();
    ResumedStands(After(Start(), EARLY));
    LastPushOverwrites(Resumed(After(Start(), EARLY)));
  }

  // Or, if another commit beats that push, its retry throws the unpushed version
  // away, and the next call replaces the machine's file: the user's edit is in no
  // file, no clone, no merge, and was never in the repository.
  lemma ResetLosesAnEdit()
    ensures Initial(Start())
    ensures var world := Next(Resumed(After(Start(), EARLY)), Commit(Plain(LATER)));
            var retry := Attempt(0, RunEnv(), Retried);
            var end := Quiet(Next(world, retry));
            && Lookup(world.machines[0].local, "mine") == Some(NEW)
            && IsEngineStep(world, retry) && GuardedStep(world, retry, "mine") && Displaces(world, retry, "mine")
            && !Known(end, 0, "mine", NEW) && Lookup(end.copies[0].clone.tree.files, "mine") == Some(OLD)
            && Lookup(end.machines[0].local, "mine") == RemoteAt(end, "mine") == Some(OLD)
  {
    EarlyRunStands();
    ResumedStands(After(Start(), EARLY));
    var world := Resumed(After(Start(), EARLY));
    RetryResets(world);
    NextCallForgets(Next(Next(world, Commit(Plain(LATER))), Attempt(0, RunEnv(), Retried)));
  }
}
