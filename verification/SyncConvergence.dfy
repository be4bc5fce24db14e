// How undisturbed passes bring all machines and the repository to agree.
module SyncConvergence {
  import opened Strings
  import opened ResourcePlanning
  import opened SyncPass
  import opened SyncSafety
  import opened SyncRuns

  // A visit is a whole undisturbed call of one machine: it pulls and pushes.
  datatype Visit = Visit(id: nat, env: Env)

  function Visited(world: World, visit: Visit): (next: World)
    requires Shaped(world)
    ensures Shaped(next) && |next.machines| == |world.machines|
  {
    Next(Next(world, Pull(visit.id, visit.env)), Attempt(visit.id, visit.env, Retried))
  }

  function AllVisited(world: World, visits: seq<Visit>): (next: World)
    requires Shaped(world)
    ensures Shaped(next) && |next.machines| == |world.machines|
  {
    if visits == [] then world else Visited(AllVisited(world, visits[..|visits| - 1]), visits[|visits| - 1])
  }

  // The tree that a visit works on.
  function ViewOf(world: World, visit: Visit): Option<Tree>
    requires Shaped(world) && visit.id < |world.machines|
  {
    Pulled(visit.env, world.copies[visit.id].clone, world.remote.tree)
  }

  // The visit synchronizes the path: its pull succeeds, nothing blocks the path, and
  // neither a conflict nor a failed write makes it keep its old base.
  predicate SavedAt(world: World, visit: Visit, path: string)
    requires Shaped(world)
  {
    && visit.id < |world.machines| && visit.env.mode == MergeMode && Clear(visit.env.role(path))
    && ViewOf(world, visit).Some?
    && !PassCell(visit.env, world.machines[visit.id], ViewOf(world, visit).value, path).kept
  }

  // The machine's file shares what it receives from the visit, if anything.
  predicate FaithfulAt(world: World, visit: Visit, path: string)
    requires Shaped(world) && SavedAt(world, visit, path)
  {
    Faithful(visit.env.role(path), visit.env.mode,
             StateAt(world.machines[visit.id], ViewOf(world, visit).value, path))
  }

  predicate CleanAt(world: World, visit: Visit, path: string)
    requires Shaped(world)
  {
    SavedAt(world, visit, path) && FaithfulAt(world, visit, path)
  }

  predicate CleanRun(world: World, visits: seq<Visit>, path: string)
    requires Shaped(world)
  {
    visits != [] ==>
      && CleanRun(world, visits[..|visits| - 1], path)
      && CleanAt(AllVisited(world, visits[..|visits| - 1]), visits[|visits| - 1], path)
  }

  predicate Visits(visits: seq<Visit>, id: nat) {
    exists i :: 0 <= i < |visits| && visits[i].id == id
  }

  predicate Covers(visits: seq<Visit>, count: nat) {
    forall id :: 0 <= id < count ==> Visits(visits, id)
  }

  // The machine holds its base: it has nothing of its own to contribute.
  predicate AtRest(world: World, id: nat, path: string)
    requires id < |world.machines|
  {
    Lookup(world.machines[id].local, path) == Lookup(world.machines[id].state, path)
  }

  predicate InStep(world: World, id: nat, path: string)
    requires id < |world.machines|
  {
    && Lookup(world.machines[id].local, path) == RemoteAt(world, path)
    && Lookup(world.machines[id].state, path) == RemoteAt(world, path)
    && Lookup(world.machines[id].store, path) == RemoteAt(world, path)
  }

  // What AheadOfUpstream would deny for every machine.
  predicate NothingAhead(world: World) {
    forall id :: 0 <= id < |world.copies| ==> NothingUnpushed(world.copies[id].clone)
  }

  lemma VisitsLast(visits: seq<Visit>, id: nat)
    requires visits != []
    ensures Visits(visits, id) <==> Visits(visits[..|visits| - 1], id) || visits[|visits| - 1].id == id
  {
    var front := visits[..|visits| - 1];
    if Visits(visits, id) && visits[|visits| - 1].id != id {
      var i :| 0 <= i < |visits| && visits[i].id == id;
      assert front[i].id == id;
    }
    if Visits(front, id) {
      var i :| 0 <= i < |front| && front[i].id == id;
      assert visits[i].id == id;
    }
  }

  // ---- One visit ----

  lemma ConcludedVisit(world: World, id: nat, pass: Pass, push: Push)
    requires Shaped(world) && id < |world.machines| && !world.copies[id].clone.stopped && push != Broken
    requires world.copies[id].version == world.remote.version && world.copies[id].clone.upstream == world.remote.tree
    ensures var view, next := world.copies[id].clone.tree, Concluded(world, id, pass, push);
            && next.machines == world.machines[id := pass.saved]
            && next.remote.tree == (if pass.tree == view then world.remote.tree else pass.tree)
            && next.copies == world.copies[id := next.copies[id]]
            && next.copies[id].clone == Clone(pass.tree, next.remote.tree, false)
  {
  }

  // An undisturbed call is never rejected. It saves what its pass made of the tree
  // it pulled, and pushes it unless there was nothing to commit.
  lemma VisitedIs(world: World, visit: Visit)
    requires Shaped(world) && visit.id < |world.machines| && ViewOf(world, visit).Some?
    ensures var machine, view, next := world.machines[visit.id], ViewOf(world, visit).value, Visited(world, visit);
            && next.machines == world.machines[visit.id := MachineAfter(visit.env, machine, view)]
            && next.remote.tree == (if TreeAfter(visit.env, machine, view) == view then world.remote.tree
                                    else TreeAfter(visit.env, machine, view))
            && next.copies == world.copies[visit.id := next.copies[visit.id]]
            && next.copies[visit.id].clone == Clone(TreeAfter(visit.env, machine, view), next.remote.tree, false)
  {
    var view := ViewOf(world, visit).value;
    var pulled := Next(world, Pull(visit.id, visit.env));
    PulledIs(world, visit.id, visit.env, view);
    AttemptIs(pulled, visit.id, visit.env, Retried);
    AttemptedIs(pulled, visit.id, visit.env, Retried);
    ConcludedVisit(pulled, visit.id, PassOf(visit.env, world.machines[visit.id], view), Retried);
    OtherCopies(world, visit.id, visit.env);
  }

  lemma OtherCopies(world: World, id: nat, env: Env)
    requires Shaped(world) && id < |world.machines|
    ensures Next(world, Pull(id, env)).copies == world.copies[id := Next(world, Pull(id, env)).copies[id]]
  {
  }

  // After a saved visit the machine rests, if and only if its file shares what it
  // received.
  lemma VisitRestsExactly(world: World, visit: Visit, path: string)
    requires Shaped(world) && SavedAt(world, visit, path)
    ensures AtRest(Visited(world, visit), visit.id, path) <==> FaithfulAt(world, visit, path)
  {
    var machine, view := world.machines[visit.id], ViewOf(world, visit).value;
    VisitedIs(world, visit);
    AfterAt(visit.env, machine, view, path);
    CompletedPassAgrees(visit.env.role(path), StateAt(machine, view, path));
  }

  // After a clean visit the machine, its bases and its clone agree on the path; and
  // they agree with the repository, if and only if the tree that was pulled had
  // nothing unpushed there or the visit committed something.
  lemma VisitExactly(world: World, visit: Visit, path: string)
    requires Shaped(world) && CleanAt(world, visit, path)
    ensures AtRest(Visited(world, visit), visit.id, path)
    ensures var view := ViewOf(world, visit).value;
            InStep(Visited(world, visit), visit.id, path) <==>
              Lookup(view.files, path) == RemoteAt(world, path)
                  || TreeAfter(visit.env, world.machines[visit.id], view) != view
  {
    var machine, view := world.machines[visit.id], ViewOf(world, visit).value;
    VisitedIs(world, visit);
    AfterAt(visit.env, machine, view, path);
    CompletedPassAgrees(visit.env.role(path), StateAt(machine, view, path));
  }

  // A visit of a machine whose clone has nothing unpushed leaves it so.
  lemma VisitKeepsNothingAhead(world: World, visit: Visit)
    requires Shaped(world) && NothingAhead(world) && visit.id < |world.machines|
    ensures ViewOf(world, visit) == Some(world.remote.tree)
    ensures NothingAhead(Visited(world, visit))
  {
    assert NothingUnpushed(world.copies[visit.id].clone);
    VisitedIs(world, visit);
  }

  // In a world with nothing unpushed a clean visit brings a machine in step, and
  // changes the repository only if the machine had something to contribute.
  lemma VisitAt(world: World, visit: Visit, path: string)
    requires Shaped(world) && NothingAhead(world) && CleanAt(world, visit, path)
    ensures InStep(Visited(world, visit), visit.id, path) && NothingAhead(Visited(world, visit))
    ensures AtRest(world, visit.id, path) ==> RemoteAt(Visited(world, visit), path) == RemoteAt(world, path)
  {
    var machine, tree := world.machines[visit.id], world.remote.tree;
    VisitKeepsNothingAhead(world, visit);
    VisitExactly(world, visit, path);
    VisitedIs(world, visit);
    AfterAt(visit.env, machine, tree, path);
    if AtRest(world, visit.id, path) {
      UnchangedSideOnlyPulls(visit.env.role(path), StateAt(machine, tree, path));
    }
  }

  // ---- Rounds ----

  lemma {:induction false} RunKeepsNothingAhead(world: World, visits: seq<Visit>, path: string)
    requires Shaped(world) && NothingAhead(world) && CleanRun(world, visits, path)
    ensures NothingAhead(AllVisited(world, visits))
  {
    if visits != [] {
      RunKeepsNothingAhead(world, visits[..|visits| - 1], path);
      VisitKeepsNothingAhead(AllVisited(world, visits[..|visits| - 1]), visits[|visits| - 1]);
    }
  }

  // A machine that has been visited has nothing more to contribute, whatever the
  // other machines do and whatever their clones hold.
  lemma {:induction false} VisitedMachineRests(world: World, visits: seq<Visit>, path: string, id: nat)
    requires Shaped(world) && CleanRun(world, visits, path) && id < |world.machines|
    requires AtRest(world, id, path) || Visits(visits, id)
    ensures AtRest(AllVisited(world, visits), id, path)
  {
    if visits != [] {
      var front, visit := visits[..|visits| - 1], visits[|visits| - 1];
      VisitsLast(visits, id);
      if id == visit.id {
        VisitExactly(AllVisited(world, front), visit, path);
      } else {
        VisitedMachineRests(world, front, path, id);
        VisitedIs(AllVisited(world, front), visit);
      }
    }
  }

  ghost predicate AllAtRest(world: World, path: string) {
    forall id :: 0 <= id < |world.machines| ==> AtRest(world, id, path)
  }

  lemma {:induction false} RestingWorldIsStable(world: World, visits: seq<Visit>, path: string)
    requires Shaped(world) && NothingAhead(world) && CleanRun(world, visits, path) && AllAtRest(world, path)
    ensures RemoteAt(AllVisited(world, visits), path) == RemoteAt(world, path)
  {
    if visits != [] {
      var front, visit := visits[..|visits| - 1], visits[|visits| - 1];
      RestingWorldIsStable(world, front, path);
      RunKeepsNothingAhead(world, front, path);
      VisitedMachineRests(world, front, path, visit.id);
      VisitAt(AllVisited(world, front), visit, path);
    }
  }

  lemma {:induction false} VisitedMachineIsInStep(world: World, visits: seq<Visit>, path: string, id: nat)
    requires Shaped(world) && NothingAhead(world) && CleanRun(world, visits, path) && AllAtRest(world, path)
    requires id < |world.machines| && Visits(visits, id)
    ensures InStep(AllVisited(world, visits), id, path)
  {
    var front, visit := visits[..|visits| - 1], visits[|visits| - 1];
    VisitsLast(visits, id);
    RunKeepsNothingAhead(world, front, path);
    VisitAt(AllVisited(world, front), visit, path);
    if id != visit.id {
      VisitedMachineIsInStep(world, front, path, id);
      VisitedIs(AllVisited(world, front), visit);
      RestingWorldIsStable(world, front, path);
      RestingWorldIsStable(world, visits, path);
    }
  }

  // From any world in which no clone is ahead: after a round in which every machine
  // has visited, the repository no longer changes at the path; after a second such
  // round all machines, their bases and the repository agree on it.
  lemma TwoRoundsConverge(world: World, first: seq<Visit>, second: seq<Visit>, path: string)
    requires Shaped(world) && NothingAhead(world) && Covers(first, |world.machines|)
    ensures var middle := AllVisited(world, first);
            var last := AllVisited(middle, second);
            CleanRun(world, first, path) && CleanRun(middle, second, path) ==>
              && RemoteAt(last, path) == RemoteAt(middle, path)
              && (Covers(second, |world.machines|) ==>
                    forall id :: 0 <= id < |world.machines| ==> InStep(last, id, path))
  {
    var middle := AllVisited(world, first);
    if CleanRun(world, first, path) && CleanRun(middle, second, path) {
      RunKeepsNothingAhead(world, first, path);
      forall id | 0 <= id < |world.machines|
        ensures AtRest(middle, id, path)
      {
        VisitedMachineRests(world, first, path, id);
      }
      RestingWorldIsStable(middle, second, path);
      forall id | 0 <= id < |world.machines| && Visits(second, id)
        ensures InStep(AllVisited(middle, second), id, path)
      {
        VisitedMachineIsInStep(middle, second, path, id);
      }
    }
  }

  // So every run in which no synchronization gives up can be followed by two such
  // rounds, and then all machines, their bases and the repository agree.
  lemma PersistentRunConverges(world: World, steps: seq<Step>, first: seq<Visit>, second: seq<Visit>, path: string)
    requires Initial(world)
    requires forall i :: 0 <= i < |steps| ==> !GivesUp(After(world, steps[..i]), steps[i])
    requires Covers(first, |world.machines|) && Covers(second, |world.machines|)
    requires CleanRun(After(world, steps), first, path)
    requires CleanRun(AllVisited(After(world, steps), first), second, path)
    ensures forall id :: 0 <= id < |world.machines| ==>
              InStep(AllVisited(AllVisited(After(world, steps), first), second), id, path)
  {
    RunKeepsPublished(world, steps);
    TwoRoundsConverge(After(world, steps), first, second, path);
  }

  // In a converged world no pass of any machine plans anything for the path.
  lemma NothingLeftToDo(world: World, id: nat, env: Env, path: string)
    requires id < |world.machines| && InStep(world, id, path) && Clear(env.role(path))
    ensures PassKind(env, world.machines[id], world.remote.tree, path) == None
  {
  }

  // ---- Exactly when a visit brings a machine in step ----

  // Whatever a machine's clean pass does on this tree, the machine and the
  // repository that it leaves behind agree on the path.
  predicate EndsInStep(env: Env, machine: Machine, view: Tree, head: Tree, path: string) {
    var next := TreeAfter(env, machine, view);
    Lookup(MachineAfter(env, machine, view).local, path) == Lookup((if next == view then head else next).files, path)
  }

  predicate IsClean(env: Env, machine: Machine, view: Tree, path: string) {
    && env.mode == MergeMode && Clear(env.role(path)) && !PassCell(env, machine, view, path).kept
    && Faithful(env.role(path), env.mode, StateAt(machine, view, path))
  }

  ghost predicate AlwaysEndsInStep(view: Tree, head: Tree, path: string) {
    forall env, machine :: IsClean(env, machine, view, path) ==> EndsInStep(env, machine, view, head, path)
  }

  lemma CleanPassEndsInStep(env: Env, machine: Machine, view: Tree, head: Tree, path: string)
    requires IsClean(env, machine, view, path) && Lookup(view.files, path) == Lookup(head.files, path)
    ensures EndsInStep(env, machine, view, head, path)
  {
    AfterAt(env, machine, view, path);
    CompletedPassAgrees(env.role(path), StateAt(machine, view, path));
  }

  lemma RecordedPass(before: PathState)
    requires before.local == before.entry == before.file
    ensures CellAfter(PLAIN, MergeMode, before) == Cell(before.local, before.file, before.conflict,
                                                        before.conflict.Some?)
  {
  }

  // A machine that has recorded all of the tree leaves everything as it is.
  lemma RecorderChangesNothing(env: Env, view: Tree)
    requires env.mode == MergeMode && forall path :: env.role(path) == PLAIN
    ensures var machine := Machine(view.files, view.files, view.files);
            LocalAfter(env, machine, view) == view.files && TreeAfter(env, machine, view) == view
  {
    var machine := Machine(view.files, view.files, view.files);
    forall path: string
      ensures PassCell(env, machine, view, path)
           == Cell(Lookup(view.files, path), Lookup(view.files, path), Lookup(view.conflicts, path),
                   Lookup(view.conflicts, path).Some?)
    {
      RecordedPass(StateAt(machine, view, path));
    }
    AfterIs(env, machine, view, view.files, view.files, view.conflicts);
  }

  // Whatever the machine: a clean undisturbed pass brings it in step with the
  // repository if and only if the tree that was pulled has nothing unpushed at the
  // path. Over an unresolved conflict no pass is clean.
  lemma EndsInStepExactly(view: Tree, head: Tree, path: string)
    ensures AlwaysEndsInStep(view, head, path) <==>
              path in view.conflicts || Lookup(view.files, path) == Lookup(head.files, path)
  {
    if path in view.conflicts {
      forall env, machine
        ensures !IsClean(env, machine, view, path)
      {
        assert StateAt(machine, view, path).conflict.Some?;
      }
    } else if Lookup(view.files, path) == Lookup(head.files, path) {
      forall env, machine | IsClean(env, machine, view, path)
        ensures EndsInStep(env, machine, view, head, path)
      {
        CleanPassEndsInStep(env, machine, view, head, path);
      }
    } else {
      var env := Env(any => PLAIN, MergeMode, (upstream, tree, newer) => None);
      var machine := Machine(view.files, view.files, view.files);
      RecorderChangesNothing(env, view);
      AfterAt(env, machine, view, path);
      RecordedPass(StateAt(machine, view, path));
      assert IsClean(env, machine, view, path) && !EndsInStep(env, machine, view, head, path);
    }
  }

  // ---- A clone that is ahead with nothing to do ----

  // The machine has recorded all of its clone, whose unpushed commit differs from
  // the repository at the path; another pass changes nothing, and replaying the
  // commit on the unchanged repository gives the same tree.
  ghost predicate Stranded(world: World, visit: Visit, path: string) {
    && Shaped(world) && visit.id < |world.machines|
    && var machine, clone := world.machines[visit.id], world.copies[visit.id].clone;
    && !clone.stopped && clone.upstream == world.remote.tree
    && Pulled(visit.env, clone, world.remote.tree) == Some(clone.tree)
    && TreeAfter(visit.env, machine, clone.tree) == clone.tree
    && MachineAfter(visit.env, machine, clone.tree) == machine
    && Lookup(clone.tree.files, path) != RemoteAt(world, path)
    && Lookup(machine.local, path) == Lookup(clone.tree.files, path)
  }

  lemma StrandedVisit(world: World, visit: Visit, path: string)
    requires Stranded(world, visit, path)
    ensures Stranded(Visited(world, visit), visit, path) && Visited(world, visit).remote.tree == world.remote.tree
  {
    VisitedIs(world, visit);
    assert Visited(world, visit).copies[visit.id].clone == world.copies[visit.id].clone;
  }

  // Every such call reports success, whatever else is pushed meanwhile.
  lemma StrandedCallSucceeds(world: World, visit: Visit, path: string, attempts: nat, races: seq<Tree>)
    requires Stranded(world, visit, path)
    ensures SyncOutcome(visit.env, attempts, world.machines[visit.id], world.copies[visit.id].clone,
                        world.remote.tree, races).result == Synced(false)
  {
  }

  lemma StrandedIsOut(world: World, visit: Visit, path: string)
    requires Stranded(world, visit, path)
    ensures !InStep(world, visit.id, path)
  {
  }

  // Such a machine never gets in step: however often it synchronizes, each time
  // successfully, its file differs from the repository's.
  lemma {:induction false} StrandedForever(world: World, visits: seq<Visit>, visit: Visit, path: string)
    requires Stranded(world, visit, path) && forall i :: 0 <= i < |visits| ==> visits[i] == visit
    ensures Stranded(AllVisited(world, visits), visit, path) && !InStep(AllVisited(world, visits), visit.id, path)
    ensures AllVisited(world, visits).remote.tree == world.remote.tree
  {
    if visits != [] {
      StrandedForever(world, visits[..|visits| - 1], visit, path);
      StrandedVisit(AllVisited(world, visits[..|visits| - 1]), visit, path);
    }
    StrandedIsOut(AllVisited(world, visits), visit, path);
  }
}
