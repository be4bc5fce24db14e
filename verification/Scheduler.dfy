// internal/scheduler/scheduler.go: the fields behind the scheduler's mutex and
// what each critical section does to them.
module Scheduler {
  import opened Strings

  // Ten minutes, in seconds.
  const DEFAULT_INTERVAL := 600

  // trigger and intervalChange are the channels of capacity one.
  datatype Shared = Shared(
    interval: int,
    paused: bool,
    running: bool,
    jobRunning: bool,
    cancelled: bool,
    nextRun: Option<int>,
    trigger: bool,
    intervalChange: bool)

  predicate Schedulable(s: Shared) {
    s.running && !s.paused && !s.cancelled
  }

  // A next run is set exactly while the scheduler is to run.
  predicate Consistent(s: Shared) {
    s.interval > 0 && (s.nextRun.Some? <==> Schedulable(s))
  }

  function EffectiveInterval(interval: int): (out: int)
    ensures out > 0
  {
    if interval <= 0 then DEFAULT_INTERVAL else interval
  }

  function IntervalSet(s: Shared, interval: int, now: int): Shared {
    var effective := EffectiveInterval(interval);
    s.(interval := effective, nextRun := if Schedulable(s) then Some(now + effective) else s.nextRun)
  }

  function Notified(s: Shared): Shared {
    s.(intervalChange := true)
  }

  function Triggered(s: Shared): Shared {
    if s.running && s.cancelled then s else s.(trigger := true)
  }

  function Paused(s: Shared): Shared {
    s.(paused := true, nextRun := None)
  }

  function Resumed(s: Shared, now: int): Shared {
    s.(paused := false, nextRun := if s.running && !s.cancelled then Some(now + s.interval) else s.nextRun)
  }

  function Begun(s: Shared, now: int): Shared {
    s.(running := true, cancelled := false, nextRun := if s.paused then None else Some(now + s.interval))
  }

  function Cancelled(s: Shared): Shared {
    if s.running then s.(cancelled := true, nextRun := None, trigger := false) else s
  }

  function EndedRun(s: Shared): Shared {
    s.(running := false, cancelled := false, nextRun := None)
  }

  function CycleStarted(s: Shared): Shared {
    s.(jobRunning := true)
  }

  function CycleFinished(s: Shared): Shared {
    s.(jobRunning := false)
  }

  function Rearmed(s: Shared, now: int): Shared {
    s.(nextRun := if Schedulable(s) then Some(now + s.interval) else None)
  }

  // How long the timer must wait, if it is to be armed at all.
  function TimerDelay(s: Shared, now: int): Option<int> {
    if !Schedulable(s) || s.nextRun.None? then None
    else Some(if s.nextRun.value < now then 0 else s.nextRun.value - now)
  }

  predicate EventCurrent(s: Shared, firedAt: int) {
    Schedulable(s) && s.nextRun.Some? && firedAt >= s.nextRun.value
  }

  class Fields {
    var interval: int
    var paused: bool
    var running: bool
    var jobRunning: bool
    var cancelled: bool
    var nextRun: Option<int>
    var trigger: bool
    var intervalChange: bool

    function Value(): Shared
      reads this
    {
      Shared(interval, paused, running, jobRunning, cancelled, nextRun, trigger, intervalChange)
    }

    predicate Valid()
      reads this
    {
      Consistent(Value())
    }

    constructor (interval: int)
      ensures Valid()
      ensures Value() == Shared(EffectiveInterval(interval), false, false, false, false, None, false, false)
    {
      this.interval := if interval <= 0 then DEFAULT_INTERVAL else interval;
      paused, running, jobRunning, cancelled := false, false, false, false;
      nextRun, trigger, intervalChange := None, false, false;
    }

    method SetInterval(newInterval: int, now: int)
      requires Valid()
      modifies this
      ensures Valid()
      ensures Value() == IntervalSet(old(Value()), newInterval, now)
    {
      interval := if newInterval <= 0 then DEFAULT_INTERVAL else newInterval;
      if running && !paused && !cancelled {
        nextRun := Some(now + interval);
      }
    }

    method NotifyIntervalChange()
      requires Valid()
      modifies this
      ensures Valid()
      ensures Value() == Notified(old(Value()))
    {
      if !intervalChange {
        intervalChange := true;
      }
    }

    method Trigger()
      requires Valid()
      modifies this
      ensures Valid()
      ensures Value() == Triggered(old(Value()))
    {
      if running && cancelled {
        return;
      }
      if !trigger {
        trigger := true;
      }
    }

    method Pause()
      requires Valid()
      modifies this
      ensures Valid()
      ensures Value() == Paused(old(Value()))
    {
      paused := true;
      nextRun := None;
    }

    method PauseIfIdle() returns (idle: bool)
      requires Valid()
      modifies this
      ensures Valid()
      ensures idle <==> !old(jobRunning)
      ensures Value() == if idle then Paused(old(Value())) else old(Value())
    {
      if jobRunning {
        return false;
      }
      paused := true;
      nextRun := None;
      idle := true;
    }

    method Resume(now: int)
      requires Valid()
      modifies this
      ensures Valid()
      ensures Value() == Resumed(old(Value()), now)
    {
      paused := false;
      if running && !cancelled {
        nextRun := Some(now + interval);
      }
    }

    method BeginRun(now: int) returns (armed: bool)
      requires Valid()
      modifies this
      ensures Valid()
      ensures armed <==> !old(running)
      ensures Value() == if armed then Begun(old(Value()), now) else old(Value())
    {
      if running {
        return false;
      }
      running := true;
      cancelled := false;
      nextRun := if !paused then Some(now + interval) else None;
      armed := true;
    }

    method CancelRun()
      requires Valid()
      modifies this
      ensures Valid()
      ensures Value() == Cancelled(old(Value()))
      ensures old(running) ==> cancelled && nextRun == None && !trigger
      ensures !old(running) ==> Value() == old(Value())
    {
      if running {
        cancelled := true;
        nextRun := None;
        trigger := false;
      }
    }

    method EndRun()
      requires Valid()
      modifies this
      ensures Valid()
      ensures Value() == EndedRun(old(Value()))
      ensures !running && !cancelled && nextRun == None && paused == old(paused) && trigger == old(trigger)
    {
      running := false;
      cancelled := false;
      nextRun := None;
    }

    // The first critical section of a cycle.
    method StartCycle() returns (started: bool)
      requires Valid()
      modifies this
      ensures Valid()
      ensures started <==> !old(paused)
      ensures Value() == if started then CycleStarted(old(Value())) else old(Value())
    {
      if paused {
        return false;
      }
      jobRunning := true;
      started := true;
    }

    // The deferred last critical section of a cycle.
    method FinishCycle()
      requires Valid()
      modifies this
      ensures Valid()
      ensures Value() == CycleFinished(old(Value()))
    {
      jobRunning := false;
    }

    method RearmAfterCycle(now: int) returns (rearm: bool)
      requires Valid()
      modifies this
      ensures Valid()
      ensures rearm <==> Schedulable(old(Value()))
      ensures Value() == Rearmed(old(Value()), now)
    {
      if paused || !running || cancelled {
        nextRun := None;
        return false;
      }
      nextRun := Some(now + interval);
      rearm := true;
    }

    // The timer is armed exactly when there is a next run, for that moment or, when
    // it has passed, at once.
    method ResetDelay(now: int) returns (delay: Option<int>)
      requires Valid()
      ensures delay == TimerDelay(Value(), now)
      ensures delay.Some? <==> nextRun.Some?
      ensures delay.Some? ==> delay.value >= 0 && now + delay.value >= nextRun.value
      ensures delay.Some? && delay.value > 0 ==> now + delay.value == nextRun.value
    {
      if paused || !running || cancelled || nextRun.None? {
        return None;
      }
      var remaining := nextRun.value - now;
      if remaining < 0 {
        remaining := 0;
      }
      delay := Some(remaining);
    }

    method TimerEventCurrent(firedAt: int) returns (current: bool)
      requires Valid()
      ensures current == EventCurrent(Value(), firedAt)
      ensures current <==> nextRun.Some? && nextRun.value <= firedAt
    {
      if paused || !running || cancelled || nextRun.None? {
        return false;
      }
      current := !(firedAt < nextRun.value);
    }
  }
}

// internal/scheduler/scheduler.go: any number of callers and of Run goroutines,
// interleaved at their critical sections.
module SchedulerRuns {
  import opened Strings
  import opened Scheduler

  // Stopping or resetting a timer also drops an event that has not been received.
  datatype Timer = Timer(deadline: Option<int>, event: Option<int>)

  // Where a Run goroutine is between two critical sections.
  datatype Phase =
    | Creating(interval: int)
    | Checking
    | Discarding
    | Waiting
    | Resetting
    | Starting
    | Working
    | Concluding
    | Rearming(interval: int)
    | Clearing
    | Leaving
    | Ended

  datatype Runner = Runner(phase: Phase, timer: Timer, contextDone: bool)

  // owner is the one goroutine that beginRun has let through; inflight counts
  // notifications that callers still have to send; starts counts job starts.
  datatype World = World(shared: Shared, now: int, inflight: nat, runners: map<nat, Runner>, owner: Option<nat>,
                         starts: nat)

  datatype Step =
    | SetInterval(interval: int)
    | Pause
    | PauseIfIdle
    | Resume
    | Trigger
    | Notify
    | Tick(duration: nat)
    | BeginRun(id: nat)
    | CreateTimer(id: nat)
    | CheckNextRun(id: nat)
    | DiscardTimer(id: nat)
    | Fire(id: nat)
    | TakeIntervalChange(id: nat)
    | TakeEvent(id: nat)
    | TakeTrigger(id: nat)
    | ResetTimer(id: nat)
    | StartCycle(id: nat)
    | JobReturns(id: nat)
    | ConcludeCycle(id: nat)
    | RearmTimer(id: nat)
    | ClearCycle(id: nat)
    | ContextDone(id: nat)
    | WatchCancellation(id: nat)
    | LeaveLoop(id: nat)
    | EndRun(id: nat)

  const STOPPED := Timer(None, None)

  // The effect of a critical section of one goroutine on the shared fields.
  function Put(world: World, id: nat, runner: Runner, shared: Shared): World {
    world.(runners := world.runners[id := runner], shared := shared)
  }

  function CallerStep(world: World, step: Step): World {
    var s := world.shared;
    match step
    case SetInterval(interval) => world.(shared := IntervalSet(s, interval, world.now), inflight := world.inflight + 1)
    case Pause => world.(shared := Paused(s), inflight := world.inflight + 1)
    case PauseIfIdle =>
      if s.jobRunning then world else world.(shared := Paused(s), inflight := world.inflight + 1)
    case Resume => world.(shared := Resumed(s, world.now), inflight := world.inflight + 1)
    case Trigger => world.(shared := Triggered(s))
    case Notify => if world.inflight > 0 then world.(shared := Notified(s), inflight := world.inflight - 1) else world
    case Tick(duration) => world.(now := world.now + duration)
    case BeginRun(id) =>
      if id in world.runners || s.running then world
      else Put(world, id, Runner(Creating(s.interval), STOPPED, false), Begun(s, world.now)).(owner := Some(id))
    case _ => world
  }

  function RunnerStep(world: World, step: Step, id: nat): World
    requires id in world.runners
  {
    var s, r := world.shared, world.runners[id];
    match step
    case CreateTimer(_) =>
      if r.phase.Creating?
      then Put(world, id, r.(phase := Checking, timer := Timer(Some(world.now + r.phase.interval), None)), s)
      else world
    case CheckNextRun(_) =>
      if r.phase == Checking
      then Put(world, id, r.(phase := if s.nextRun.None? then Discarding else Waiting), s)
      else world
    case DiscardTimer(_) =>
      if r.phase == Discarding then Put(world, id, r.(phase := Waiting, timer := STOPPED), s) else world
    case Fire(_) =>
      if r.timer.deadline.Some? && world.now >= r.timer.deadline.value
      then Put(world, id, r.(timer := Timer(None, Some(world.now))), s) else world
    case TakeIntervalChange(_) =>
      if r.phase == Waiting && s.intervalChange
      then Put(world, id, r.(phase := if r.contextDone then Leaving else Resetting), s.(intervalChange := false))
      else world
    case TakeEvent(_) =>
      if r.phase == Waiting && r.timer.event.Some?
      then Put(world, id, r.(timer := r.timer.(event := None),
                             phase := if r.contextDone then Leaving
                                      else if EventCurrent(s, r.timer.event.value) then Starting else Resetting), s)
      else world
    case TakeTrigger(_) =>
      if r.phase == Waiting && s.trigger
      then Put(world, id, r.(phase := if r.contextDone then Leaving else Starting), s.(trigger := false)) else world
    case ResetTimer(_) =>
      if r.phase == Resetting
      then var delay := TimerDelay(s, world.now);
           Put(world, id, r.(phase := Waiting,
                             timer := if delay.Some? then Timer(Some(world.now + delay.value), None) else STOPPED), s)
      else world
    case StartCycle(_) =>
      if r.phase != Starting then world
      else if s.paused then Put(world, id, r.(phase := Waiting, timer := STOPPED), s)
      else Put(world, id, r.(phase := Working, timer := STOPPED), CycleStarted(s)).(starts := world.starts + 1)
    case JobReturns(_) =>
      if r.phase == Working then Put(world, id, r.(phase := Concluding), s) else world
    case ConcludeCycle(_) =>
      if r.phase != Concluding then world
      else if r.contextDone then Put(world, id, r.(phase := Clearing), Cancelled(s))
      else Put(world, id, r.(phase := if Schedulable(s) then Rearming(s.interval) else Clearing), Rearmed(s, world.now))
    case RearmTimer(_) =>
      if r.phase.Rearming?
      then Put(world, id, r.(phase := Clearing, timer := Timer(Some(world.now + r.phase.interval), None)), s)
      else world
    case ClearCycle(_) =>
      if r.phase == Clearing then Put(world, id, r.(phase := Waiting), CycleFinished(s)) else world
    case ContextDone(_) => Put(world, id, r.(contextDone := true), s)
    case WatchCancellation(_) =>
      if r.contextDone && r.phase != Ended then Put(world, id, r, Cancelled(s)) else world
    case LeaveLoop(_) =>
      if r.contextDone && r.phase == Waiting then Put(world, id, r.(phase := Leaving), s) else world
    case EndRun(_) =>
      if r.phase == Leaving
      then Put(world, id, r.(phase := Ended, timer := STOPPED), EndedRun(s)).(owner := None)
      else world
    case _ => world
  }

  function IdOf(step: Step): Option<nat> {
    match step
    case CreateTimer(id) => Some(id)
    case CheckNextRun(id) => Some(id)
    case DiscardTimer(id) => Some(id)
    case Fire(id) => Some(id)
    case TakeIntervalChange(id) => Some(id)
    case TakeEvent(id) => Some(id)
    case TakeTrigger(id) => Some(id)
    case ResetTimer(id) => Some(id)
    case StartCycle(id) => Some(id)
    case JobReturns(id) => Some(id)
    case ConcludeCycle(id) => Some(id)
    case RearmTimer(id) => Some(id)
    case ClearCycle(id) => Some(id)
    case ContextDone(id) => Some(id)
    case WatchCancellation(id) => Some(id)
    case LeaveLoop(id) => Some(id)
    case EndRun(id) => Some(id)
    case _ => None
  }

  function Next(world: World, step: Step): World {
    var id := IdOf(step);
    if id.None? then CallerStep(world, step)
    else if id.value in world.runners then RunnerStep(world, step, id.value)
    else world
  }

  function After(world: World, steps: seq<Step>): World {
    if steps == [] then world else Next(After(world, steps[..|steps| - 1]), steps[|steps| - 1])
  }

  ghost predicate Initial(world: World) {
    && world.shared.interval > 0 && !world.shared.paused && !world.shared.running && !world.shared.jobRunning
    && !world.shared.cancelled && world.shared.nextRun == None
    && world.inflight == 0 && world.runners == map[] && world.owner == None && world.starts == 0
  }

  // ---- The invariant ----

  // A wakeup of the loop is on its way through the intervalChange channel.
  predicate Notice(world: World) {
    world.shared.intervalChange || world.inflight > 0
  }

  predicate InCycle(phase: Phase) {
    phase == Working || phase == Concluding || phase.Rearming? || phase == Clearing
  }

  // The timer will bring an event that is current.
  predicate Armed(timer: Timer, nextRun: int) {
    (timer.deadline.Some? && timer.deadline.value >= nextRun) || (timer.event.Some? && timer.event.value >= nextRun)
  }

  predicate Covered(world: World, runner: Runner) {
    world.shared.nextRun.Some? && !Notice(world) ==>
      match runner.phase
      case Creating(interval) => world.now + interval >= world.shared.nextRun.value
      case Rearming(interval) => world.now + interval >= world.shared.nextRun.value
      case Checking => Armed(runner.timer, world.shared.nextRun.value)
      case Waiting => Armed(runner.timer, world.shared.nextRun.value)
      case Clearing => Armed(runner.timer, world.shared.nextRun.value)
      case Discarding => false
      case _ => true
  }

  // The shared fields agree with where the owning goroutine is.
  ghost predicate Owned(world: World) {
    && Consistent(world.shared)
    && (world.shared.running <==> world.owner.Some?)
    && (world.owner.Some? ==> world.owner.value in world.runners)
    && (forall id :: id in world.runners ==> (world.runners[id].phase != Ended <==> world.owner == Some(id)))
    && (world.shared.jobRunning <==> world.owner.Some? && InCycle(world.runners[world.owner.value].phase))
  }

  ghost predicate Inv(world: World) {
    && Owned(world)
    && (forall id :: id in world.runners ==>
          world.runners[id].timer.deadline.None? || world.runners[id].timer.event.None?)
    && (world.owner.Some? ==> Covered(world, world.runners[world.owner.value]))
  }

  lemma CallerKeepsInv(world: World, step: Step)
    requires Inv(world)
    ensures Inv(CallerStep(world, step))
  {
  }

  lemma OwnerKeepsOwned(world: World, step: Step)
    requires Owned(world) && world.owner.Some?
    ensures Owned(RunnerStep(world, step, world.owner.value))
  {
  }

  lemma RunnerKeepsOwned(world: World, step: Step, id: nat)
    requires Owned(world) && id in world.runners
    ensures Owned(RunnerStep(world, step, id))
  {
    if world.owner == Some(id) {
      OwnerKeepsOwned(world, step);
    } else {
      EndedStays(world, step, id);
      assert RunnerStep(world, step, id).runners[id].phase == Ended;
    }
  }

  lemma RunnerKeepsTimers(world: World, step: Step, id: nat)
    requires id in world.runners
    requires forall other :: other in world.runners ==>
               world.runners[other].timer.deadline.None? || world.runners[other].timer.event.None?
    ensures forall other :: other in RunnerStep(world, step, id).runners ==>
              var timer := RunnerStep(world, step, id).runners[other].timer; timer.deadline.None? || timer.event.None?
  {
  }

  // No wakeup is lost: whatever a critical section does to the schedule, the
  // goroutine's timer, a notification or the next rearming covers it.
  lemma RunnerKeepsCover(world: World, step: Step, id: nat)
    requires Inv(world) && world.owner == Some(id)
    ensures RunnerStep(world, step, id).owner.Some? ==>
              && RunnerStep(world, step, id).owner == Some(id)
              && Covered(RunnerStep(world, step, id), RunnerStep(world, step, id).runners[id])
  {
  }

  lemma RunnerKeepsInv(world: World, step: Step, id: nat)
    requires Inv(world) && id in world.runners
    ensures Inv(RunnerStep(world, step, id))
  {
    RunnerKeepsOwned(world, step, id);
    RunnerKeepsTimers(world, step, id);
    if world.owner == Some(id) {
      RunnerKeepsCover(world, step, id);
    } else {
      EndedStays(world, step, id);
    }
  }

  // A goroutine that has ended touches nothing but its own timer and context.
  lemma EndedStays(world: World, step: Step, id: nat)
    requires id in world.runners && world.runners[id].phase == Ended
    ensures RunnerStep(world, step, id) == world.(runners := RunnerStep(world, step, id).runners)
    ensures RunnerStep(world, step, id).runners == world.runners[id := RunnerStep(world, step, id).runners[id]]
  {
  }

  lemma StepKeepsInv(world: World, step: Step)
    requires Inv(world)
    ensures Inv(Next(world, step))
  {
    if IdOf(step).None? {
      CallerKeepsInv(world, step);
    } else if IdOf(step).value in world.runners {
      RunnerKeepsInv(world, step, IdOf(step).value);
    }
  }

  lemma {:induction false} RunKeepsInv(world: World, steps: seq<Step>)
    requires Initial(world)
    ensures Inv(After(world, steps))
  {
    if steps != [] {
      RunKeepsInv(world, steps[..|steps| - 1]);
      StepKeepsInv(After(world, steps[..|steps| - 1]), steps[|steps| - 1]);
    }
  }

  // ---- What it means ----

  predicate RunsJob(world: World, id: nat) {
    id in world.runners && InCycle(world.runners[id].phase)
  }

  // nextRun is set exactly while running, not paused and not cancelled; at most
  // one goroutine is inside a cycle, and only while jobRunning is set.
  lemma ScheduleIsConsistent(world: World, steps: seq<Step>)
    requires Initial(world)
    ensures var last := After(world, steps);
            && (last.shared.nextRun.Some? <==> Schedulable(last.shared))
            && (forall one, other :: RunsJob(last, one) && RunsJob(last, other) ==> one == other)
            && (last.shared.jobRunning <==> exists id :: RunsJob(last, id))
  {
    RunKeepsInv(world, steps);
    var last := After(world, steps);
    if last.shared.jobRunning {
      assert RunsJob(last, last.owner.value);
    }
  }

  // A waiting loop whose next run is set will wake up: a notification is on its
  // way, or its timer is armed for no earlier than the next run or has fired then.
  lemma NoWakeupIsLost(world: World, steps: seq<Step>, id: nat)
    requires Initial(world)
    requires var last := After(world, steps);
             id in last.runners && last.runners[id].phase == Waiting && last.shared.nextRun.Some?
    ensures var last := After(world, steps); Notice(last) || Armed(last.runners[id].timer, last.shared.nextRun.value)
  {
    RunKeepsInv(world, steps);
  }

  // And that wakeup starts the job: if nothing else happens, the timer fires, its
  // event is current and the cycle starts.
  lemma WakeupStartsJob(world: World, steps: seq<Step>, id: nat, duration: nat)
    requires Initial(world)
    requires var last := After(world, steps);
             && id in last.runners && last.runners[id].phase == Waiting && !last.runners[id].contextDone
             && last.shared.nextRun.Some? && !Notice(last)
             && (last.runners[id].timer.deadline.Some? ==> last.now + duration >= last.runners[id].timer.deadline.value)
    ensures var last := After(world, steps);
            Next(Next(Next(Next(last, Tick(duration)), Fire(id)), TakeEvent(id)), StartCycle(id)).starts
                == last.starts + 1
  {
    RunKeepsInv(world, steps);
    var last := After(world, steps);
    var ticked := Next(last, Tick(duration));
    var fired := Next(ticked, Fire(id));
    assert fired.runners[id].timer.event.Some? && fired.runners[id].timer.event.value >= last.shared.nextRun.value;
    var taken := Next(fired, TakeEvent(id));
    assert taken.runners[id].phase == Starting;
  }

  lemma CallerKeepsTrigger(world: World, step: Step)
    requires world.shared.trigger
    ensures CallerStep(world, step).shared.trigger
  {
  }

  lemma RunnerKeepsTrigger(world: World, step: Step, id: nat)
    requires world.shared.trigger && id in world.runners && !step.TakeTrigger?
    ensures RunnerStep(world, step, id).shared.trigger || RunnerStep(world, step, id).shared.cancelled
  {
  }

  // A requested run is not forgotten: the request stays until the loop takes it or
  // the run is cancelled, and taking it starts the job.
  lemma TriggerStays(world: World, step: Step)
    requires world.shared.trigger && !step.TakeTrigger?
    ensures Next(world, step).shared.trigger || Next(world, step).shared.cancelled
  {
    if IdOf(step).None? {
      CallerKeepsTrigger(world, step);
    } else if IdOf(step).value in world.runners {
      RunnerKeepsTrigger(world, step, IdOf(step).value);
    }
  }

  lemma TriggerStartsJob(world: World, steps: seq<Step>, id: nat)
    requires Initial(world)
    requires var last := After(world, steps);
             id in last.runners && last.runners[id].phase == Waiting && !last.runners[id].contextDone
                 && Schedulable(last.shared)
    ensures var last := After(world, steps);
            && Next(last, Trigger).shared.trigger
            && Next(Next(Next(last, Trigger), TakeTrigger(id)), StartCycle(id)).starts == last.starts + 1
  {
    var last := After(world, steps);
    var requested := Next(last, Trigger);
    assert requested.shared.trigger && requested.runners == last.runners;
    var taken := Next(requested, TakeTrigger(id));
    assert taken.runners[id].phase == Starting;
  }

  // The pause of PauseIfIdle holds: from the moment it reports true, no job starts
  // and none is running until someone resumes.
  lemma {:induction false} PauseHolds(world: World, steps: seq<Step>)
    requires Inv(world) && !world.shared.jobRunning
    requires forall i :: 0 <= i < |steps| ==> !steps[i].Resume?
    ensures var last := After(Next(world, PauseIfIdle), steps);
            Inv(last) && last.shared.paused && !last.shared.jobRunning && last.starts == world.starts
  {
    StepKeepsInv(world, PauseIfIdle);
    if steps != [] {
      var front, step := steps[..|steps| - 1], steps[|steps| - 1];
      PauseHolds(world, front);
      StepKeepsInv(After(Next(world, PauseIfIdle), front), step);
      PausedStays(After(Next(world, PauseIfIdle), front), step);
    }
  }

  predicate Quiet(world: World) {
    world.shared.paused && !world.shared.jobRunning
  }

  lemma CallerStaysQuiet(world: World, step: Step)
    requires Quiet(world) && !step.Resume?
    ensures Quiet(CallerStep(world, step)) && CallerStep(world, step).starts == world.starts
  {
  }

  lemma RunnerStaysQuiet(world: World, step: Step, id: nat)
    requires Quiet(world) && id in world.runners
    ensures Quiet(RunnerStep(world, step, id)) && RunnerStep(world, step, id).starts == world.starts
  {
  }

  lemma PausedStays(world: World, step: Step)
    requires Quiet(world) && !step.Resume?
    ensures Quiet(Next(world, step)) && Next(world, step).starts == world.starts
  {
    if IdOf(step).None? {
      CallerStaysQuiet(world, step);
    } else if IdOf(step).value in world.runners {
      RunnerStaysQuiet(world, step, IdOf(step).value);
    }
  }

  // ---- Cancellation ----

  // The run of this goroutine is cancelled, and nobody has asked for another one.
  predicate Stopped(world: World, id: nat) {
    world.owner == Some(id) && world.shared.cancelled && !world.shared.trigger
  }

  // How many jobs can still start: one, if the loop has taken its wakeup already.
  function Pending(world: World, id: nat): nat {
    if id in world.runners && world.runners[id].phase == Starting then 1 else 0
  }

  lemma CallerStaysStopped(world: World, step: Step, id: nat)
    requires Inv(world) && Stopped(world, id)
    ensures Stopped(CallerStep(world, step), id)
    ensures CallerStep(world, step).starts == world.starts && Pending(CallerStep(world, step), id) == Pending(world, id)
  {
  }

  lemma RunnerStaysStopped(world: World, step: Step, id: nat)
    requires Inv(world) && Stopped(world, id) && step != EndRun(id) && IdOf(step) == Some(id)
    ensures var next := RunnerStep(world, step, id);
            Stopped(next, id) && next.starts + Pending(next, id) <= world.starts + Pending(world, id)
  {
  }

  lemma StaysStopped(world: World, step: Step, id: nat)
    requires Inv(world) && Stopped(world, id) && step != EndRun(id)
    ensures Stopped(Next(world, step), id)
    ensures Next(world, step).starts + Pending(Next(world, step), id) <= world.starts + Pending(world, id)
  {
    if IdOf(step).None? {
      CallerStaysStopped(world, step, id);
    } else if IdOf(step) == Some(id) {
      RunnerStaysStopped(world, step, id);
    } else if IdOf(step).value in world.runners {
      EndedStays(world, step, IdOf(step).value);
    }
  }

  // Cancellation is final: until the run has ended no next run is set and no request
  // is accepted, whatever callers do, and no job starts, except the one whose wakeup
  // the loop had taken before.
  lemma {:induction false} CancellationHolds(world: World, steps: seq<Step>, id: nat)
    requires Inv(world) && world.owner == Some(id) && world.runners[id].contextDone
    requires forall i :: 0 <= i < |steps| ==> steps[i] != EndRun(id)
    ensures var last := After(Next(world, WatchCancellation(id)), steps);
            && Inv(last) && Stopped(last, id) && last.shared.nextRun == None
            && last.starts + Pending(last, id) <= world.starts + Pending(world, id)
  {
    var cancelled := Next(world, WatchCancellation(id));
    StepKeepsInv(world, WatchCancellation(id));
    if steps != [] {
      var front, step := steps[..|steps| - 1], steps[|steps| - 1];
      CancellationHolds(world, front, id);
      StepKeepsInv(After(cancelled, front), step);
      StaysStopped(After(cancelled, front), step, id);
    }
  }

  // ---- Changes of the schedule ----

  predicate Reschedules(world: World, change: Step) {
    match change
    case SetInterval(_) => Schedulable(world.shared)
    case Resume => world.shared.running && !world.shared.cancelled
    case _ => false
  }

  function Heard(world: World, id: nat): World {
    Next(Next(Next(world, Notify), TakeIntervalChange(id)), ResetTimer(id))
  }

  lemma NoticeIs(world: World)
    requires world.inflight > 0
    ensures Next(world, Notify) == world.(shared := world.shared.(intervalChange := true),
                                          inflight := world.inflight - 1)
  {
  }

  lemma TakenIs(world: World, id: nat)
    requires id in world.runners && world.runners[id].phase == Waiting && !world.runners[id].contextDone
    requires world.shared.intervalChange
    ensures Next(world, TakeIntervalChange(id))
         == Put(world, id, world.runners[id].(phase := Resetting), world.shared.(intervalChange := false))
  {
  }

  lemma ResetIs(world: World, id: nat)
    requires id in world.runners && world.runners[id].phase == Resetting
    requires Schedulable(world.shared) && world.shared.nextRun.Some?
    ensures var next, due := Next(world, ResetTimer(id)), world.shared.nextRun.value;
            && next.shared == world.shared && next.now == world.now && id in next.runners
            && next.runners[id].phase == Waiting
            && next.runners[id].timer == Timer(Some(if due < world.now then world.now else due), None)
  {
  }

  lemma HeardIs(world: World, id: nat)
    requires id in world.runners && world.runners[id].phase == Waiting && !world.runners[id].contextDone
    requires world.inflight > 0 && Schedulable(world.shared) && world.shared.nextRun.Some?
    ensures var heard, due := Heard(world, id), world.shared.nextRun.value;
            && heard.shared.nextRun == Some(due) && heard.now == world.now && id in heard.runners
            && heard.runners[id].phase == Waiting
            && heard.runners[id].timer == Timer(Some(if due < world.now then world.now else due), None)
  {
    NoticeIs(world);
    TakenIs(Next(world, Notify), id);
    ResetIs(Next(Next(world, Notify), TakeIntervalChange(id)), id);
  }

  // The interval after a change: the requested one, in place of one that is not
  // positive ten minutes, or the old one.
  function IntervalAfter(world: World, change: Step): int {
    match change
    case SetInterval(interval) => if interval > 0 then interval else 600
    case _ => world.shared.interval
  }

  lemma ChangedIs(world: World, change: Step, duration: nat)
    requires Consistent(world.shared) && Reschedules(world, change)
    ensures var next := Next(Next(world, change), Tick(duration));
            && Schedulable(next.shared) && next.shared.interval == IntervalAfter(world, change)
            && Next(world, change).shared.nextRun == Some(world.now + IntervalAfter(world, change))
            && next.shared.nextRun == Next(world, change).shared.nextRun
            && next.runners == world.runners && next.inflight > 0
  {
  }

  // A new interval, or a resume, reaches a waiting loop: once the loop has taken the
  // notification, its timer is set for exactly the requested interval after the change,
  // however much time has passed, or at once when that moment is over.
  lemma ChangeReachesTimer(world: World, change: Step, id: nat, duration: nat)
    requires Consistent(world.shared) && Reschedules(world, change)
    requires id in world.runners && world.runners[id].phase == Waiting && !world.runners[id].contextDone
    ensures var changed := Next(world, change);
            var heard := Heard(Next(changed, Tick(duration)), id);
            var due := world.now + IntervalAfter(world, change);
            && changed.shared.interval == IntervalAfter(world, change)
            && changed.shared.nextRun == Some(due) && heard.shared.nextRun == Some(due)
            && id in heard.runners && heard.runners[id].phase == Waiting
            && heard.runners[id].timer == Timer(Some(if due < heard.now then heard.now else due), None)
  {
    ChangedIs(world, change, duration);
    HeardIs(Next(Next(world, change), Tick(duration)), id);
  }

  // ---- The interval that is kept ----

  lemma CallerKeepsInterval(world: World, step: Step)
    requires !step.SetInterval?
    ensures CallerStep(world, step).shared.interval == world.shared.interval
  {
  }

  lemma RunnerKeepsInterval(world: World, step: Step, id: nat)
    requires id in world.runners
    ensures RunnerStep(world, step, id).shared.interval == world.shared.interval
  {
  }

  // The interval is the one that was last set.
  lemma {:induction false} IntervalStays(world: World, interval: int, steps: seq<Step>)
    requires forall i :: 0 <= i < |steps| ==> !steps[i].SetInterval?
    ensures After(Next(world, SetInterval(interval)), steps).shared.interval == if interval > 0 then interval else 600
  {
    if steps != [] {
      var front, step := steps[..|steps| - 1], steps[|steps| - 1];
      IntervalStays(world, interval, front);
      var before := After(Next(world, SetInterval(interval)), front);
      if IdOf(step).None? {
        CallerKeepsInterval(before, step);
      } else if IdOf(step).value in before.runners {
        RunnerKeepsInterval(before, step, IdOf(step).value);
      }
    }
  }

  lemma ConcludedWaits(world: World, id: nat)
    requires id in world.runners && world.runners[id].phase == Concluding && !world.runners[id].contextDone
    requires Schedulable(world.shared)
    ensures var concluded := Next(world, ConcludeCycle(id));
            var armed := Next(concluded, RearmTimer(id));
            && concluded.shared.nextRun == Some(world.now + world.shared.interval)
            && id in armed.runners && armed.runners[id].timer == Timer(Some(world.now + world.shared.interval), None)
  {
  }

  lemma BegunWaits(world: World, id: nat)
    requires id !in world.runners && !world.shared.running
    ensures var begun := Next(world, BeginRun(id));
            var armed := Next(begun, CreateTimer(id));
            && begun.shared.nextRun == (if world.shared.paused then None else Some(world.now + world.shared.interval))
            && begun.shared.running && !begun.shared.cancelled
            && id in armed.runners && armed.runners[id].timer == Timer(Some(world.now + world.shared.interval), None)
  {
  }

  // Until the interval is set again, every cycle and every new run schedules the next
  // one exactly that long ahead, and arms its timer for it.
  lemma IntervalIsObeyed(world: World, interval: int, steps: seq<Step>, id: nat)
    requires forall i :: 0 <= i < |steps| ==> !steps[i].SetInterval?
    ensures var last := After(Next(world, SetInterval(interval)), steps);
            var due := last.now + if interval > 0 then interval else 600;
            && (id in last.runners && last.runners[id].phase == Concluding && !last.runners[id].contextDone
                && Schedulable(last.shared) ==>
                  var concluded := Next(last, ConcludeCycle(id));
                  var armed := Next(concluded, RearmTimer(id));
                  && concluded.shared.nextRun == Some(due)
                  && id in armed.runners && armed.runners[id].timer == Timer(Some(due), None))
            && (id !in last.runners && !last.shared.running ==>
                  var begun := Next(last, BeginRun(id));
                  var armed := Next(begun, CreateTimer(id));
                  && begun.shared.nextRun == (if last.shared.paused then None else Some(due))
                  && id in armed.runners && armed.runners[id].timer == Timer(Some(due), None))
  {
    IntervalStays(world, interval, steps);
    var last := After(Next(world, SetInterval(interval)), steps);
    if id in last.runners && last.runners[id].phase == Concluding && !last.runners[id].contextDone
       && Schedulable(last.shared) {
      ConcludedWaits(last, id);
    }
    if id !in last.runners && !last.shared.running {
      BegunWaits(last, id);
    }
  }

  // ---- The loop goes on, and ends ----

  predicate IsAt(world: World, id: nat, phase: Phase) {
    id in world.runners && world.runners[id].phase == phase
  }

  lemma JobStarts(world: World, id: nat)
    requires IsAt(world, id, Starting) && !world.shared.paused
    ensures var next := Next(world, StartCycle(id));
            && IsAt(next, id, Working) && next.runners[id].timer == STOPPED && next.starts == world.starts + 1
            && next.shared == world.shared.(jobRunning := true) && next.now == world.now
            && next.runners[id].contextDone == world.runners[id].contextDone
  {
  }

  lemma JobIsOver(world: World, id: nat)
    requires IsAt(world, id, Working)
    ensures Next(world, JobReturns(id))
         == world.(runners := world.runners[id := world.runners[id].(phase := Concluding)])
  {
  }

  lemma CycleCloses(world: World, id: nat)
    requires IsAt(world, id, Clearing)
    ensures var next := Next(world, ClearCycle(id));
            && IsAt(next, id, Waiting) && next.runners[id].timer == world.runners[id].timer
            && next.shared == world.shared.(jobRunning := false)
  {
  }

  function Worked(world: World, id: nat, duration: nat): World {
    Next(Next(Next(world, StartCycle(id)), Tick(duration)), JobReturns(id))
  }

  // A cycle comes round: the job runs once, however long, and then the loop waits
  // again, with the next run and the timer one interval after the job.
  lemma CycleComesRound(world: World, id: nat, duration: nat)
    requires IsAt(world, id, Starting) && !world.runners[id].contextDone && Schedulable(world.shared)
    ensures var worked := Worked(world, id, duration);
            var next := Next(Next(Next(worked, ConcludeCycle(id)), RearmTimer(id)), ClearCycle(id));
            var due := world.now + duration + world.shared.interval;
            && worked.shared.jobRunning && worked.starts == world.starts + 1
            && IsAt(next, id, Waiting) && !next.shared.jobRunning
            && next.shared.nextRun == Some(due) && next.runners[id].timer == Timer(Some(due), None)
  {
    JobStarts(world, id);
    var ticked := Next(Next(world, StartCycle(id)), Tick(duration));
    JobIsOver(ticked, id);
    ConcludedWaits(Worked(world, id, duration), id);
    ArmedCycle(Worked(world, id, duration), id);
    CycleCloses(Next(Next(Worked(world, id, duration), ConcludeCycle(id)), RearmTimer(id)), id);
  }

  lemma ArmedCycle(world: World, id: nat)
    requires IsAt(world, id, Concluding) && !world.runners[id].contextDone && Schedulable(world.shared)
    ensures var armed := Next(Next(world, ConcludeCycle(id)), RearmTimer(id));
            IsAt(armed, id, Clearing) && armed.shared == Next(world, ConcludeCycle(id)).shared
  {
  }

  // A loop that was paused before its job starts waits again without one, and a cycle
  // that was paused meanwhile schedules nothing.
  lemma PausedCycle(world: World, id: nat)
    requires world.shared.paused
    ensures IsAt(world, id, Starting) ==>
              var next := Next(world, StartCycle(id));
              && IsAt(next, id, Waiting) && next.runners[id].timer == STOPPED
              && next.starts == world.starts && next.shared == world.shared
    ensures IsAt(world, id, Concluding) && !world.runners[id].contextDone ==>
              var next := Next(world, ConcludeCycle(id));
              IsAt(next, id, Clearing) && next.shared == world.shared.(nextRun := None)
  {
  }

  // A pause disarms the timer of a waiting loop that hears of it.
  lemma PauseReachesTimer(world: World, pause: Step, id: nat)
    requires pause == Pause || (pause == PauseIfIdle && !world.shared.jobRunning)
    requires IsAt(world, id, Waiting) && !world.runners[id].contextDone
    ensures var paused := Next(world, pause);
            && paused.shared.paused && paused.shared.nextRun == None && paused.inflight > 0
            && IsAt(Heard(paused, id), id, Waiting) && Heard(paused, id).runners[id].timer == STOPPED
  {
    var paused := Next(world, pause);
    NoticeIs(paused);
    TakenIs(Next(paused, Notify), id);
  }

  // While a job runs, an idle pause does nothing.
  lemma BusyIsNotPaused(world: World)
    requires world.shared.jobRunning
    ensures Next(world, PauseIfIdle) == world
  {
  }

  // A new run without a next run, because it begins paused, waits without a timer; any
  // other keeps its timer.
  lemma BeginningChecks(world: World, id: nat)
    requires IsAt(world, id, Checking)
    ensures var checked := Next(world, CheckNextRun(id));
            if world.shared.nextRun.Some?
            then IsAt(checked, id, Waiting) && checked.runners[id].timer == world.runners[id].timer
            else IsAt(Next(checked, DiscardTimer(id)), id, Waiting)
                 && Next(checked, DiscardTimer(id)).runners[id].timer == STOPPED
  {
  }

  // An event from before the next run starts nothing; it is taken, and the timer set
  // again.
  lemma EarlyEventIsTaken(world: World, id: nat)
    requires IsAt(world, id, Waiting) && !world.runners[id].contextDone && Schedulable(world.shared)
    requires world.shared.nextRun.Some? && world.runners[id].timer.event.Some?
    requires world.runners[id].timer.event.value < world.shared.nextRun.value
    ensures var taken := Next(world, TakeEvent(id));
            && IsAt(taken, id, Resetting) && taken.runners[id].timer.event == None && taken.shared == world.shared
  {
  }

  // A fired timer holds the moment as its event and no deadline.
  lemma TimerFiresExactly(world: World, id: nat)
    requires id in world.runners && world.runners[id].timer.deadline.Some?
    ensures Next(world, Fire(id))
         == if world.now < world.runners[id].timer.deadline.value then world
            else world.(runners := world.runners[id := world.runners[id].(timer := Timer(None, Some(world.now)))])
  {
  }

  // Once its context has ended, a waiting loop starts no job whatever it takes: it
  // leaves, and the scheduler can run again.
  lemma ContextEndsRun(world: World, id: nat, step: Step)
    requires IsAt(Next(world, ContextDone(id)), id, Waiting) && world.owner == Some(id)
    requires step == LeaveLoop(id) || step == TakeIntervalChange(id) || step == TakeEvent(id) || step == TakeTrigger(id)
    ensures var left := Next(Next(world, ContextDone(id)), step);
            && left.starts == world.starts
            && (IsAt(left, id, Waiting) || IsAt(left, id, Leaving))
            && IsAt(Next(Next(world, ContextDone(id)), LeaveLoop(id)), id, Leaving)
    ensures var ended := Next(Next(Next(world, ContextDone(id)), LeaveLoop(id)), EndRun(id));
            && IsAt(ended, id, Ended) && ended.owner == None && ended.runners[id].timer == STOPPED
            && !ended.shared.running && !ended.shared.cancelled && ended.shared.nextRun == None
  {
  }
}
