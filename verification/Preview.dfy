// internal/desktop/preview_coordinator.go and the generation check of
// internal/desktop/resources.go: previews are collected once for all callers and
// kept only while the configuration they were made from is still saved.
module Preview {
  import opened Strings

  datatype Call = Call(waiters: int, completed: bool, cancelled: bool)

  // Every collection ever started, and the one that new callers join.
  datatype Coordination = Coordination(calls: seq<Call>, inflight: Option<nat>)

  predicate WellFormed(c: Coordination) {
    c.inflight.Some? ==> c.inflight.value < |c.calls|
  }

  function Joined(c: Coordination): (out: Coordination)
    requires WellFormed(c)
    ensures WellFormed(out) && out.inflight.Some?
  {
    match c.inflight
    case None => Coordination(c.calls + [Call(1, false, false)], Some(|c.calls|))
    case Some(i) => c.(calls := c.calls[i := c.calls[i].(waiters := c.calls[i].waiters + 1)])
  }

  function Completed(c: Coordination, call: nat): (out: Coordination)
    requires WellFormed(c) && call < |c.calls|
    ensures WellFormed(out)
  {
    Coordination(c.calls[call := c.calls[call].(completed := true)],
                 if c.inflight == Some(call) then None else c.inflight)
  }

  function Cancelled(c: Coordination, call: nat): (out: Coordination)
    requires WellFormed(c) && call < |c.calls|
    ensures WellFormed(out)
  {
    c.(calls := c.calls[call := c.calls[call].(cancelled := true)])
  }

  function Released(c: Coordination, call: nat): (out: Coordination)
    requires WellFormed(c) && call < |c.calls|
    ensures WellFormed(out)
  {
    var left := c.calls[call].waiters - 1;
    var fewer := c.(calls := c.calls[call := c.calls[call].(waiters := left)]);
    if left == 0 && !c.calls[call].completed
    then Cancelled(fewer, call).(inflight := if c.inflight == Some(call) then None else c.inflight)
    else fewer
  }

  predicate Live(call: Call) {
    !call.completed && !call.cancelled
  }

  // The one live collection is the one in flight, and an unfinished collection is
  // cancelled exactly when nobody waits for it.
  predicate Coherent(c: Coordination) {
    && WellFormed(c)
    && (forall i :: 0 <= i < |c.calls| ==> (Live(c.calls[i]) <==> c.inflight == Some(i)))
    && (forall i :: 0 <= i < |c.calls| ==> c.calls[i].waiters >= 0)
    && (forall i :: 0 <= i < |c.calls| && !c.calls[i].completed ==> (c.calls[i].cancelled <==> c.calls[i].waiters == 0))
  }

  class Coordinator {
    var calls: seq<Call>
    var inflight: Option<nat>

    function Value(): Coordination
      reads this
    {
      Coordination(calls, inflight)
    }

    predicate Valid()
      reads this
    {
      Coherent(Value())
    }

    constructor ()
      ensures Valid() && Value() == Coordination([], None)
    {
      calls, inflight := [], None;
    }

    // The first critical section of refresh: the caller gets the live collection.
    method Join() returns (call: nat)
      requires Valid()
      modifies this
      ensures Valid() && Value() == Joined(old(Value()))
      ensures call < |calls| && Live(calls[call]) && forall i :: 0 <= i < |calls| && Live(calls[i]) ==> i == call
    {
      if inflight.None? {
        call := |calls|;
        calls := calls + [Call(1, false, false)];
        inflight := Some(call);
      } else {
        call := inflight.value;
        calls := calls[call := calls[call].(waiters := calls[call].waiters + 1)];
      }
    }

    // The critical section of run, which every collection reaches once: a collection
    // that had been cancelled, and perhaps replaced, leaves its successor in flight.
    method Complete(call: nat)
      requires Valid() && call < |calls| && !calls[call].completed
      modifies this
      ensures Valid() && Value() == Completed(old(Value()), call)
      ensures inflight == if old(Live(calls[call])) then None else old(inflight)
    {
      calls := calls[call := calls[call].(completed := true)];
      if inflight == Some(call) {
        inflight := None;
      }
    }

    // A caller that has joined leaves, and the last one takes the collection along
    // unless it is done.
    method Release(call: nat)
      requires Valid() && call < |calls| && calls[call].waiters > 0
      modifies this
      ensures Valid() && Value() == Released(old(Value()), call)
      ensures old(Live(calls[call])) && !Live(calls[call]) <==> old(calls[call]) == Call(1, false, false)
    {
      calls := calls[call := calls[call].(waiters := calls[call].waiters - 1)];
      if calls[call].waiters == 0 && !calls[call].completed {
        if inflight == Some(call) {
          inflight := None;
        }
        calls := calls[call := calls[call].(cancelled := true)];
      }
    }
  }

  // The stored preview is represented by the configuration it was made from.
  datatype Summary = Summary(generation: nat, stored: Option<string>)

  class SummaryStore {
    var generation: nat
    var stored: Option<string>

    function Value(): Summary
      reads this
    {
      Summary(generation, stored)
    }

    // commitPreview: refuses a preview from before the last invalidation.
    method Commit(started: nat, preview: string) returns (accepted: bool)
      modifies this
      ensures accepted <==> started == old(generation)
      ensures Value() == if accepted then Summary(old(generation), Some(preview)) else old(Value())
    {
      if started != generation {
        return false;
      }
      stored := Some(preview);
      accepted := true;
    }

    method Invalidate()
      modifies this
      ensures Value() == Summary(old(generation) + 1, None)
    {
      generation := generation + 1;
      stored := None;
    }
  }
}

// Callers, collections and configuration saves, interleaved.
module PreviewRuns {
  import opened Strings
  import opened Preview

  // Where a collection is between two critical sections.
  datatype Phase =
    | Starting
    | Started(generation: nat)
    | Loaded(generation: nat, config: string, silent: nat)
    | Collected
    | Finished

  datatype Caller = Waiting(call: nat) | Gone

  // A synchronization that runs, with the settings and the mark of a completed first
  // synchronization that it has loaded.
  datatype Sync = Sync(config: string, completed: bool)

  // config are the saved settings that previews are made from, and completed the mark
  // beside them. saving counts the saves that have written the settings and not yet
  // invalidated the preview; silent counts those of synchronizations that have
  // replaced them without invalidating anything, and storedAt says how many of them
  // there had been when the settings of the stored preview were loaded.
  datatype World = World(
    coordination: Coordination,
    phases: seq<Phase>,
    callers: seq<Caller>,
    config: string,
    completed: bool,
    saving: nat,
    summary: Summary,
    syncing: Option<Sync>,
    silent: nat,
    storedAt: nat)

  datatype Step =
    | Refresh
    | Leave(caller: nat)
    | ReadGeneration(call: nat)
    | LoadConfig(call: nat)
    | Commit(call: nat)
    | Fail(call: nat)
    | Complete(call: nat)
    | CancelContext(call: nat)
    | SaveConfig(config: string, completed: bool)
    | Invalidate
    | StartSync
    | EndSync(success: bool)

  predicate Shaped(world: World) {
    WellFormed(world.coordination) && |world.phases| == |world.coordination.calls|
  }

  function Moved(world: World, call: nat, phase: Phase): (next: World)
    requires Shaped(world) && call < |world.phases|
    ensures Shaped(next)
  {
    world.(phases := world.phases[call := phase])
  }

  // A waiting caller leaves when its collection is done or its own context ends.
  function CallStep(world: World, step: Step, call: nat): (next: World)
    requires Shaped(world) && call < |world.phases|
    ensures Shaped(next)
  {
    var phase := world.phases[call];
    match step
    case ReadGeneration(_) => if phase == Starting then Moved(world, call, Started(world.summary.generation)) else world
    case LoadConfig(_) =>
      if phase.Started? then Moved(world, call, Loaded(phase.generation, world.config, world.silent)) else world
    case Commit(_) =>
      if !phase.Loaded? then world
      else if phase.generation != world.summary.generation then Moved(world, call, Collected)
      else
        Moved(world, call, Collected).(summary := Summary(world.summary.generation, Some(phase.config)),
                                       storedAt := phase.silent)
    case Fail(_) => if phase == Collected || phase == Finished then world else Moved(world, call, Collected)
    case Complete(_) =>
      if phase == Collected
      then Moved(world, call, Finished).(coordination := Completed(world.coordination, call))
      else world
    case CancelContext(_) =>
      if phase == Finished then world.(coordination := Cancelled(world.coordination, call)) else world
    case _ => world
  }

  function CallOf(step: Step): Option<nat> {
    match step
    case ReadGeneration(call) => Some(call)
    case LoadConfig(call) => Some(call)
    case Commit(call) => Some(call)
    case Fail(call) => Some(call)
    case Complete(call) => Some(call)
    case CancelContext(call) => Some(call)
    case _ => None
  }

  // The first synchronization that succeeds writes back the settings that it loaded
  // when it started, with its mark, and invalidates nothing.
  predicate WritesBack(world: World, success: bool) {
    world.syncing.Some? && success && !world.syncing.value.completed
  }

  function Synchronized(world: World, success: bool): (next: World)
    requires Shaped(world)
    ensures Shaped(next)
  {
    if !WritesBack(world, success) then world.(syncing := None)
    else
      world.(config := world.syncing.value.config, completed := true, syncing := None,
             silent := if world.syncing.value.config == world.config then world.silent else world.silent + 1)
  }

  function Next(world: World, step: Step): (next: World)
    requires Shaped(world)
    ensures Shaped(next)
  {
    if CallOf(step).Some? then
      if CallOf(step).value < |world.phases| then CallStep(world, step, CallOf(step).value) else world
    else match step
      case Refresh =>
        var joined := Joined(world.coordination);
        world.(coordination := joined,
               phases := if |joined.calls| > |world.phases| then world.phases + [Starting] else world.phases,
               callers := world.callers + [Waiting(joined.inflight.value)])
      case Leave(caller) =>
        if caller < |world.callers| && world.callers[caller].Waiting? && world.callers[caller].call < |world.phases|
        then world.(coordination := Released(world.coordination, world.callers[caller].call),
                    callers := world.callers[caller := Gone])
        else world
      case SaveConfig(config, completed) => world.(config := config, completed := completed, saving := world.saving + 1)
      case Invalidate =>
        if world.saving > 0
        then world.(saving := world.saving - 1, summary := Summary(world.summary.generation + 1, None))
        else world
      case StartSync =>
        if world.syncing.None? then world.(syncing := Some(Sync(world.config, world.completed))) else world
      case EndSync(success) => Synchronized(world, success)
      case _ => world
  }

  function After(world: World, steps: seq<Step>): (last: World)
    requires Shaped(world)
    ensures Shaped(last)
  {
    if steps == [] then world else Next(After(world, steps[..|steps| - 1]), steps[|steps| - 1])
  }

  predicate Initial(world: World) {
    && world.coordination == Coordination([], None) && world.phases == [] && world.callers == []
    && world.saving == 0 && world.summary.stored == None && world.syncing == None
  }

  // ---- Counting the callers of a collection ----

  function Count(callers: seq<Caller>, call: nat): nat {
    if callers == [] then 0
    else Count(callers[..|callers| - 1], call) + if callers[|callers| - 1] == Waiting(call) then 1 else 0
  }

  lemma CountJoin(callers: seq<Caller>, joined: nat, call: nat)
    ensures Count(callers + [Waiting(joined)], call) == Count(callers, call) + if call == joined then 1 else 0
  {
    assert (callers + [Waiting(joined)])[..|callers|] == callers;
  }

  lemma {:induction false} CountLeave(callers: seq<Caller>, i: nat, call: nat)
    requires i < |callers| && callers[i].Waiting?
    ensures Count(callers[i := Gone], call) == Count(callers, call) - if callers[i] == Waiting(call) then 1 else 0
    ensures callers[i] == Waiting(call) ==> Count(callers, call) > 0
  {
    var front := callers[..|callers| - 1];
    if i < |front| {
      CountLeave(front, i, call);
      assert callers[i := Gone][..|callers| - 1] == front[i := Gone];
    } else {
      assert callers[i := Gone][..|callers| - 1] == front;
    }
  }

  // ---- The invariant ----

  // The coordination is coherent, and a collection counts its waiting callers.
  ghost predicate Coordinated(world: World)
    requires Shaped(world)
  {
    var c := world.coordination;
    && Coherent(c)
    && (forall i :: 0 <= i < |c.calls| ==> c.calls[i].waiters == Count(world.callers, i))
    && (forall i :: 0 <= i < |world.phases| ==> (world.phases[i] == Finished <==> c.calls[i].completed))
    && (forall k :: 0 <= k < |world.callers| && world.callers[k].Waiting? ==> world.callers[k].call < |c.calls|)
  }

  // A preview that could still be committed, or that is stored, was made from the
  // saved settings, unless a save is about to invalidate it, or a synchronization has
  // silently replaced the settings since.
  ghost predicate Current(world: World) {
    && (world.summary.stored.Some? ==>
          && world.storedAt <= world.silent
          && (world.summary.stored.value == world.config || world.saving > 0 || world.storedAt < world.silent))
    && (forall i :: 0 <= i < |world.phases| && world.phases[i].Started?
                    ==> world.phases[i].generation <= world.summary.generation)
    && (forall i :: 0 <= i < |world.phases| && world.phases[i].Loaded? ==>
          && world.phases[i].generation <= world.summary.generation && world.phases[i].silent <= world.silent
          && (world.phases[i].generation == world.summary.generation ==>
                world.phases[i].config == world.config || world.saving > 0 || world.phases[i].silent < world.silent))
  }

  lemma StepKeepsCurrent(world: World, step: Step)
    requires Shaped(world) && Current(world)
    ensures Current(Next(world, step))
  {
  }

  lemma CallKeepsCoordinated(world: World, step: Step, call: nat)
    requires Shaped(world) && Coordinated(world) && call < |world.phases|
    ensures Coordinated(CallStep(world, step, call))
  {
  }

  lemma StepKeepsCoordinated(world: World, step: Step)
    requires Shaped(world) && Coordinated(world)
    ensures Coordinated(Next(world, step))
  {
    if CallOf(step).Some? {
      if CallOf(step).value < |world.phases| {
        CallKeepsCoordinated(world, step, CallOf(step).value);
      }
    } else {
      match step
      case Refresh => JoinKeepsCoordinated(world);
      case Leave(caller) => LeaveKeepsCoordinated(world, caller);
      case _ =>
    }
  }

  lemma JoinKeepsCoordinated(world: World)
    requires Shaped(world) && Coordinated(world)
    ensures Coordinated(Next(world, Refresh))
  {
    var c, joined := world.coordination, Joined(world.coordination);
    forall i | 0 <= i < |joined.calls|
      ensures Count(world.callers + [Waiting(joined.inflight.value)], i) == joined.calls[i].waiters
    {
      CountJoin(world.callers, joined.inflight.value, i);
      if i == |c.calls| {
        NobodyWaits(world.callers, |c.calls|);
      }
    }
  }

  lemma {:induction false} NobodyWaits(callers: seq<Caller>, bound: nat)
    requires forall k :: 0 <= k < |callers| && callers[k].Waiting? ==> callers[k].call < bound
    ensures Count(callers, bound) == 0
  {
    if callers != [] {
      NobodyWaits(callers[..|callers| - 1], bound);
    }
  }

  lemma LeaveKeepsCoordinated(world: World, caller: nat)
    requires Shaped(world) && Coordinated(world)
    ensures Coordinated(Next(world, Leave(caller)))
  {
    if caller < |world.callers| && world.callers[caller].Waiting? {
      forall i | 0 <= i < |world.coordination.calls|
        ensures Count(world.callers[caller := Gone], i)
             == world.coordination.calls[i].waiters - if world.callers[caller].call == i then 1 else 0
        ensures world.callers[caller].call == i ==> world.coordination.calls[i].waiters > 0
      {
        CountLeave(world.callers, caller, i);
      }
    }
  }

  lemma {:induction false} RunKeepsInv(world: World, steps: seq<Step>)
    requires Initial(world)
    ensures Coordinated(After(world, steps)) && Current(After(world, steps))
  {
    if steps != [] {
      var before, step := After(world, steps[..|steps| - 1]), steps[|steps| - 1];
      RunKeepsInv(world, steps[..|steps| - 1]);
      StepKeepsCoordinated(before, step);
      StepKeepsCurrent(before, step);
    }
  }

  // At most one collection is live; it waits for exactly the callers that have
  // joined and not left; an unfinished one is cancelled exactly when none are left.
  lemma OneLiveCollection(world: World, steps: seq<Step>)
    requires Initial(world)
    ensures var last := After(world, steps);
            && (forall i, j :: 0 <= i < j < |last.coordination.calls| ==>
                  !(Live(last.coordination.calls[i]) && Live(last.coordination.calls[j])))
            && (forall i :: 0 <= i < |last.coordination.calls| ==>
                  last.coordination.calls[i].waiters == Count(last.callers, i)
                  && (!last.coordination.calls[i].completed ==> (last.coordination.calls[i].cancelled
                                                                 <==> Count(last.callers, i) == 0)))
  {
    RunKeepsInv(world, steps);
  }

  lemma {:induction false} WaitingIsCounted(callers: seq<Caller>, k: nat, call: nat)
    requires k < |callers| && callers[k] == Waiting(call)
    ensures Count(callers, call) > 0
  {
    if k < |callers| - 1 {
      WaitingIsCounted(callers[..|callers| - 1], k, call);
    }
  }

  // A collection is never cancelled under a caller who waits for it: it has completed,
  // or it is live and the one that further callers join.
  lemma WaitersAreServed(world: World, steps: seq<Step>, k: nat, call: nat)
    requires Initial(world)
    requires k < |After(world, steps).callers| && After(world, steps).callers[k] == Waiting(call)
    ensures var c := After(world, steps).coordination;
            call < |c.calls| && (c.calls[call].completed || (!c.calls[call].cancelled && c.inflight == Some(call)))
  {
    RunKeepsInv(world, steps);
    WaitingIsCounted(After(world, steps).callers, k, call);
  }

  // A collection that is done is stored under its generation or fails, then completes,
  // and its context is cancelled in the end.
  lemma CollectionEnds(world: World, call: nat)
    requires Shaped(world) && call < |world.phases|
    ensures world.phases[call] in {Starting, Collected, Finished} ==>
              Next(world, Commit(call)) == world
    ensures world.phases[call] != Collected && world.phases[call] != Finished ==>
              Next(world, Fail(call)) == world.(phases := world.phases[call := Collected])
    ensures world.phases[call] == Collected ==>
              var next := Next(world, Complete(call));
              next.phases[call] == Finished && next.coordination.calls[call].completed
    ensures world.phases[call] == Finished ==>
              Next(world, CancelContext(call)).coordination.calls[call]
              == world.coordination.calls[call].(cancelled := true)
  {
  }

  // With no save under way, a stored preview was made from the saved settings, if no
  // synchronization has replaced them silently since it was loaded.
  lemma StoredPreviewIsCurrent(world: World, steps: seq<Step>)
    requires Initial(world)
    ensures var last := After(world, steps);
            last.saving == 0 && last.summary.stored.Some? && last.storedAt == last.silent ==>
              last.summary.stored.value == last.config
  {
    RunKeepsInv(world, steps);
  }

  // What the saves save: a user's save its settings and mark, with an invalidation to
  // come; and the end of a synchronization the settings that it loaded when it started,
  // if it succeeds and had not loaded the mark.
  lemma SavesExactly(world: World, config: string, completed: bool, success: bool)
    requires Shaped(world)
    ensures var saved := Next(world, SaveConfig(config, completed));
            saved.config == config && saved.completed == completed && saved.saving == world.saving + 1
    ensures Next(world, StartSync).syncing
         == if world.syncing.Some? then world.syncing else Some(Sync(world.config, world.completed))
    ensures var ended, back := Next(world, EndSync(success)), world.syncing.Some? && success
                                                             && !world.syncing.value.completed;
            && ended.syncing == None && ended.summary == world.summary && ended.saving == world.saving
            && ended.config == (if back then world.syncing.value.config else world.config)
            && ended.completed == (back || world.completed)
  {
  }

  // The step does not replace settings that were saved while a first synchronization
  // was running.
  predicate Harmless(world: World, step: Step) {
    step.EndSync? && WritesBack(world, step.success) ==> world.syncing.value.config == world.config
  }

  lemma HarmlessStepIsNeverSilent(world: World, step: Step)
    requires Shaped(world) && Harmless(world, step)
    ensures Next(world, step).silent == world.silent
  {
  }

  lemma {:induction false} HarmlessRunIsNeverSilent(world: World, steps: seq<Step>)
    requires Shaped(world)
    requires forall i :: 0 <= i < |steps| ==> Harmless(After(world, steps[..i]), steps[i])
    ensures After(world, steps).silent == world.silent
  {
    if steps != [] {
      var front := steps[..|steps| - 1];
      forall i | 0 <= i < |front|
        ensures Harmless(After(world, front[..i]), front[i])
      {
        assert front[..i] == steps[..i];
      }
      HarmlessRunIsNeverSilent(world, front);
      HarmlessStepIsNeverSilent(After(world, front), steps[|steps| - 1]);
    }
  }

  // If the settings are never saved while a first synchronization runs, or only as
  // they were, every stored preview is current.
  lemma HarmlessRunIsCurrent(world: World, steps: seq<Step>)
    requires Initial(world) && world.silent == world.storedAt == 0
    requires forall i :: 0 <= i < |steps| ==> Harmless(After(world, steps[..i]), steps[i])
    ensures var last := After(world, steps);
            last.saving == 0 && last.summary.stored.Some? ==> last.summary.stored.value == last.config
  {
    RunKeepsInv(world, steps);
    HarmlessRunIsNeverSilent(world, steps);
  }

  // And only so: the end of a synchronization leaves a current stored preview current,
  // if and only if it is harmless.
  lemma SyncKeepsCurrentExactly(world: World, steps: seq<Step>, success: bool)
    requires Initial(world)
    requires var last := After(world, steps);
             && last.saving == 0 && last.summary.stored.Some? && last.storedAt == last.silent
    ensures var last := After(world, steps);
            var next := Next(last, EndSync(success));
            next.summary.stored == Some(next.config) <==> Harmless(last, EndSync(success))
  {
    StoredPreviewIsCurrent(world, steps);
  }

  // Settings that are saved during the first synchronization, and a preview of them:
  // when the synchronization ends, the old settings are back and the preview stays.
  const BEGINNING := World(Coordination([], None), [], [], "old", false, 0, Summary(0, None), None, 0, 0)

  const EARLY := [StartSync, SaveConfig("new", false), Invalidate, Refresh]
  const LATE := [ReadGeneration(0), LoadConfig(0), Commit(0), EndSync(true)]

  lemma Four(world: World, steps: seq<Step>)
    requires Shaped(world) && |steps| == 4
    ensures After(world, steps) == Next(Next(Next(Next(world, steps[0]), steps[1]), steps[2]), steps[3])
  {
    assert steps[..3][..2][..1][..0] == [];
    assert After(world, steps[..3][..2][..1]) == Next(world, steps[0]);
    assert After(world, steps[..3][..2]) == Next(Next(world, steps[0]), steps[1]);
  }

  const PREVIEWED := World(Coordination([Call(1, false, false)], Some(0)), [Starting], [Waiting(0)], "new", false, 0,
                           Summary(1, None), Some(Sync("old", false)), 0, 0)

  lemma EarlyIs()
    ensures After(BEGINNING, EARLY) == PREVIEWED
  {
    Four(BEGINNING, EARLY);
  }

  lemma LateIs()
    ensures After(PREVIEWED, LATE)
         == PREVIEWED.(phases := [Collected], config := "old", completed := true, summary := Summary(1, Some("new")),
                       syncing := None, silent := 1)
  {
    Four(PREVIEWED, LATE);
    assert "new" != "old" by {
      assert "new"[0] != "old"[0];
    }
  }

  lemma StoredPreviewCanBeStale()
    ensures Initial(BEGINNING)
    ensures var last := After(After(BEGINNING, EARLY), LATE);
            && last.saving == 0 && last.syncing == None
            && last.summary.stored == Some("new") && last.config == "old"
  {
    EarlyIs();
    LateIs();
  }
}
