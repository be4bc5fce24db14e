// internal/tray/feedback.go: the tip that the tray shows, as its fields and what
// each critical section does to them.
module TrayFeedback {
  import opened Strings

  datatype SchedulerState = Idle | Updating | Done | Failed | Paused

  datatype Stage = Pulling | Scanning | Comparing | Applying | Uploading | Complete

  datatype Kind =
    | ReadyTip | SyncingTip | PullingTip | ScanningTip | ComparingTip | ApplyingTip | PushingTip
    | DoneTip | ErrorTip | WarningTip | PausedTip

  // The message of a kind, or one of its two variants; the title follows from the kind.
  datatype Message = Standard | FinishingWhilePaused | NoticesReviewed

  datatype Tip = Tip(revision: nat, kind: Kind, message: Message)

  // timer holds the revision that the armed hide timer was scheduled for.
  datatype Fields = Fields(
    tip: Tip,
    active: bool,
    paused: bool,
    finished: bool,
    ready: bool,
    dismissed: bool,
    visible: bool,
    enabled: bool,
    closed: bool,
    timer: Option<nat>)

  datatype Update = Update(tip: Tip, icon: SchedulerState, show: bool)

  datatype Operation =
    | State(state: SchedulerState)
    | Progress(stage: Stage)
    | Finish(failed: bool, needsAttention: bool)
    | Reviewed(needsAttention: bool)
    | Ready
    | Dismiss
    | SetEnabled(enabled: bool)
    | Close
    | TimerFires(revision: nat)

  const INITIAL := Fields(Tip(0, ReadyTip, Standard), false, false, false, false, false, false, true, false, None)

  predicate IsAlert(kind: Kind) {
    kind == ErrorTip || kind == WarningTip
  }

  predicate IsPhase(kind: Kind) {
    kind in {SyncingTip, PullingTip, ScanningTip, ComparingTip, ApplyingTip, PushingTip}
  }

  function StageKind(stage: Stage): Kind {
    match stage
    case Pulling => PullingTip
    case Scanning => ScanningTip
    case Comparing => ComparingTip
    case Applying => ApplyingTip
    case Uploading => PushingTip
    case Complete => DoneTip
  }

  function CurrentUpdate(f: Fields): Update {
    var icon := if IsAlert(f.tip.kind) then Failed
                else if f.active then Updating
                else if f.paused then Paused
                else if f.tip.kind == DoneTip then Done
                else Idle;
    Update(f.tip, icon, f.ready && f.visible && f.enabled)
  }

  function HideScheduled(f: Fields): Fields {
    if !f.ready || !f.visible || !f.enabled then f else f.(timer := Some(f.tip.revision))
  }

  // setLocked: an unchanged tip keeps its revision, its visibility and its timer.
  function TipSet(f: Fields, kind: Kind, message: Message, visible: bool): Fields {
    if f.tip.kind == kind && f.tip.message == message then f
    else HideScheduled(f.(tip := Tip(f.tip.revision + 1, kind, message), visible := visible && f.enabled,
                          timer := None))
  }

  function Finished(f: Fields, failed: bool, needsAttention: bool): Fields {
    var ended := f.(active := false, finished := true);
    if failed then TipSet(ended.(dismissed := false), ErrorTip, Standard, true)
    else if needsAttention then TipSet(ended.(dismissed := false), WarningTip, Standard, true)
    else TipSet(ended, DoneTip, Standard, !ended.dismissed)
  }

  function StateChanged(f: Fields, state: SchedulerState): Fields {
    match state
    case Updating =>
      if f.active then f
      else TipSet(f.(active := true, finished := false, dismissed := false, paused := false), SyncingTip, Standard,
                  true)
    case Paused =>
      var paused := f.(paused := true);
      if !f.active && !IsAlert(f.tip.kind) then TipSet(paused, PausedTip, Standard, true) else paused
    case Idle =>
      var resumed := f.(paused := false);
      if !f.active && !IsAlert(f.tip.kind) then TipSet(resumed, ReadyTip, Standard, false) else resumed
    case _ => if f.finished then f else Finished(f, state == Failed, false)
  }

  // Whether an operation ends in a delivery of the current update.
  predicate Delivers(f: Fields, operation: Operation) {
    !f.closed &&
    match operation
    case State(_) => true
    case Progress(stage) => stage != Complete && f.active
    case Finish(_, _) => true
    case Reviewed(needsAttention) => !needsAttention && f.tip.kind == WarningTip
    case Ready => !f.ready
    case Dismiss => true
    case SetEnabled(enabled) => f.enabled != enabled
    case Close => false
    case TimerFires(revision) => f.tip.revision == revision
  }

  function Performed(f: Fields, operation: Operation): Fields {
    if operation == Close then f.(closed := true, timer := None)
    else if !Delivers(f, operation) then f
    else match operation
      case State(state) => StateChanged(f, state)
      case Progress(stage) => TipSet(f, StageKind(stage), if f.paused then FinishingWhilePaused
                                     else Standard, !f.dismissed)
      case Finish(failed, needsAttention) => Finished(f, failed, needsAttention)
      case Reviewed(_) => TipSet(f, DoneTip, NoticesReviewed, false)
      case Ready => HideScheduled(f.(ready := true, tip := f.tip.(revision := f.tip.revision + 1)))
      case Dismiss => f.(dismissed := true, visible := false, tip := f.tip.(revision := f.tip.revision + 1),
                         timer := None)
      case SetEnabled(enabled) => f.(enabled := enabled, visible := false,
                                     tip := f.tip.(revision := f.tip.revision + 1), timer := None)
      case TimerFires(_) => f.(visible := false, tip := f.tip.(revision := f.tip.revision + 1))
      case Close => f
  }

  // ---- A revision determines the update ----

  // The kind of the tip tells whether a run is active, and a tip that names the
  // pause agrees with it.
  predicate KindAgrees(f: Fields) {
    && (IsPhase(f.tip.kind) <==> f.active)
    && (f.tip.kind == PausedTip ==> f.paused)
    && (f.tip.kind == ReadyTip ==> !f.paused)
  }

  // The revision stays with the whole update, or goes up by one.
  predicate Continues(f: Fields, next: Fields) {
    && KindAgrees(next)
    && (if next.tip.revision == f.tip.revision then CurrentUpdate(next) == CurrentUpdate(f)
        else next.tip.revision == f.tip.revision + 1)
  }

  lemma HideScheduledIs(f: Fields)
    ensures HideScheduled(f) == f.(timer := HideScheduled(f).timer)
  {
  }

  lemma TipSetIs(f: Fields, kind: Kind, message: Message, visible: bool)
    ensures var next := TipSet(f, kind, message, visible);
            && next.tip.kind == kind && next.active == f.active && next.paused == f.paused
            && (next == f || next.tip.revision == f.tip.revision + 1)
  {
    HideScheduledIs(f.(tip := Tip(f.tip.revision + 1, kind, message), visible := visible && f.enabled, timer := None));
  }

  lemma FinishedContinues(f: Fields, failed: bool, needsAttention: bool)
    requires KindAgrees(f)
    ensures Continues(f, Finished(f, failed, needsAttention))
  {
    var ended := f.(active := false, finished := true);
    TipSetIs(ended.(dismissed := false), ErrorTip, Standard, true);
    TipSetIs(ended.(dismissed := false), WarningTip, Standard, true);
    TipSetIs(ended, DoneTip, Standard, !ended.dismissed);
  }

  lemma UpdatingContinues(f: Fields)
    requires KindAgrees(f)
    ensures Continues(f, StateChanged(f, Updating))
  {
    TipSetIs(f.(active := true, finished := false, dismissed := false, paused := false), SyncingTip, Standard, true);
  }

  lemma PausedContinues(f: Fields)
    requires KindAgrees(f)
    ensures Continues(f, StateChanged(f, Paused))
  {
    TipSetIs(f.(paused := true), PausedTip, Standard, true);
  }

  lemma IdleContinues(f: Fields)
    requires KindAgrees(f)
    ensures Continues(f, StateChanged(f, Idle))
  {
    TipSetIs(f.(paused := false), ReadyTip, Standard, false);
  }

  lemma StateContinues(f: Fields, state: SchedulerState)
    requires KindAgrees(f)
    ensures Continues(f, StateChanged(f, state))
  {
    match state
    case Updating => UpdatingContinues(f);
    case Paused => PausedContinues(f);
    case Idle => IdleContinues(f);
    case _ => FinishedContinues(f, state == Failed, false);
  }

  // An operation that leaves the revision alone leaves the whole update alone;
  // any other raises it by one, and delivers.
  lemma RevisionDeterminesUpdate(f: Fields, operation: Operation)
    requires KindAgrees(f)
    ensures Continues(f, Performed(f, operation))
    ensures Performed(f, operation).tip.revision != f.tip.revision ==> Delivers(f, operation)
  {
    if Delivers(f, operation) {
      match operation
      case State(state) =>
        StateContinues(f, state);
      case Progress(stage) =>
        TipSetIs(f, StageKind(stage), if f.paused then FinishingWhilePaused else Standard, !f.dismissed);
      case Finish(failed, needsAttention) =>
        FinishedContinues(f, failed, needsAttention);
      case Reviewed(_) =>
        TipSetIs(f, DoneTip, NoticesReviewed, false);
      case _ =>
    }
  }

  // ---- What the tray shows ----

  // The tip after an operation, its icon, and whether it pops up.
  predicate Shows(before: Fields, operation: Operation, kind: Kind, icon: SchedulerState, popsUp: bool) {
    var after := Performed(before, operation);
    var update := CurrentUpdate(after);
    && after.tip.kind == kind && update.tip == after.tip && update.icon == icon
    && (after.tip.revision > before.tip.revision ==> update.show == (popsUp && before.ready && before.enabled))
    && (after.tip.revision > before.tip.revision ==>
          after.timer == if update.show then Some(after.tip.revision) else None)
  }

  // A run that failed ends with the error tip and icon, one that needs attention with
  // the warning and the error icon, any other with the done tip and its icon, or the
  // paused one. The first two always pop up, the last unless the user has dismissed
  // the tip.
  lemma RunEndsWith(f: Fields, failed: bool, needsAttention: bool)
    requires !f.closed
    ensures Shows(f, Finish(failed, needsAttention),
                  if failed then ErrorTip else if needsAttention then WarningTip else DoneTip,
                  if failed || needsAttention then Failed else if f.paused then Paused else Done,
                  failed || needsAttention || !f.dismissed)
    ensures var after := Performed(f, Finish(failed, needsAttention));
            !after.active && after.finished && after.paused == f.paused
  {
  }

  // The scheduler's end of a run says the same, unless the run has been finished.
  lemma SchedulerEndsRun(f: Fields, failed: bool)
    requires !f.closed
    ensures Performed(f, State(if failed then Failed else Done))
         == if f.finished then f else Performed(f, Finish(failed, false))
  {
  }

  // A run begins with a tip that pops up; while it lasts, each stage shows its own
  // tip, until the user dismisses it.
  lemma RunShows(f: Fields, stage: Stage)
    requires !f.closed && KindAgrees(f)
    ensures !f.active ==> Shows(f, State(Updating), SyncingTip, Updating, true)
    ensures !f.active ==>
              var after := Performed(f, State(Updating));
              after.active && !after.finished && !after.dismissed && !after.paused
    ensures f.active ==> Performed(f, State(Updating)) == f
    ensures f.active && stage != Complete ==>
              Shows(f, Progress(stage),
                    match stage
                    case Pulling => PullingTip
                    case Scanning => ScanningTip
                    case Comparing => ComparingTip
                    case Applying => ApplyingTip
                    case Uploading => PushingTip
                    case Complete => DoneTip,
                    Updating, !f.dismissed)
    ensures !f.active || stage == Complete ==> Performed(f, Progress(stage)) == f
  {
  }

  // Pausing and resuming change the tip only between runs and over no error or
  // warning; the paused tip pops up.
  lemma PauseShows(f: Fields)
    requires !f.closed && KindAgrees(f)
    ensures Performed(f, State(Paused)).paused
    ensures if !f.active && f.tip.kind != ErrorTip && f.tip.kind != WarningTip
            then Shows(f, State(Paused), PausedTip, Paused, true)
            else Performed(f, State(Paused)).tip == f.tip
  {
  }

  lemma ResumeShows(f: Fields)
    requires !f.closed && KindAgrees(f)
    ensures !Performed(f, State(Idle)).paused
    ensures if !f.active && f.tip.kind != ErrorTip && f.tip.kind != WarningTip
            then Shows(f, State(Idle), ReadyTip, Idle, false)
            else Performed(f, State(Idle)).tip == f.tip
  {
  }

  // Reviewing the notices turns a warning into done, silently.
  lemma ReviewShows(f: Fields)
    requires !f.closed && KindAgrees(f) && f.tip.kind == WarningTip
    ensures Shows(f, Reviewed(false), DoneTip, if f.paused then Paused else Done, false)
    ensures Performed(f, Reviewed(true)) == f
  {
  }

  // Dismissing hides the tip and keeps it hidden until the next run.
  lemma DismissHides(f: Fields)
    requires !f.closed
    ensures var after := Performed(f, Dismiss);
            && after.dismissed && !CurrentUpdate(after).show && after.timer == None && after.enabled == f.enabled
  {
  }

  // Disabling and enabling hide the current tip.
  lemma SwitchHides(f: Fields, on: bool)
    requires !f.closed && on != f.enabled
    ensures var after := Performed(f, SetEnabled(on));
            && after.enabled == on && !CurrentUpdate(after).show && after.timer == None
            && after.dismissed == f.dismissed
  {
  }

  // A hide timer hides the tip that it was set for, and closing stops it.
  lemma TimerHides(f: Fields)
    requires !f.closed
    ensures !CurrentUpdate(Performed(f, TimerFires(f.tip.revision))).show
    ensures Performed(f, Close).closed && Performed(f, Close).timer == None
  {
  }

  // When the tray is ready, the tip that waits for it pops up.
  lemma ReadyShows(f: Fields)
    requires !f.closed && !f.ready
    ensures var after := Performed(f, Ready);
            && CurrentUpdate(after).show == (f.visible && f.enabled)
            && after.timer == if f.visible && f.enabled then Some(after.tip.revision) else f.timer
  {
  }

  lemma ClosedNeverShows(f: Fields, operation: Operation)
    requires f.closed && operation != Close
    ensures Performed(f, operation) == f && !Delivers(f, operation)
  {
  }

  // ---- The critical sections of the source ----

  // What a public method does up to the unlocking of its mutex: the new fields, the
  // update that it goes on to deliver, and what both promise to the tray.
  ghost predicate Results(f: Fields, operation: Operation, next: Fields, update: Option<Update>) {
    && next == Performed(f, operation)
    && update == (if Delivers(f, operation) then Some(CurrentUpdate(next)) else None)
    && Continues(f, next)
    && (next.tip.revision != f.tip.revision ==> update.Some?)
  }

  class Feedback {
    var tip: Tip
    var active: bool
    var paused: bool
    var finished: bool
    var ready: bool
    var dismissed: bool
    var visible: bool
    var enabled: bool
    var closed: bool
    var timer: Option<nat>

    function Value(): Fields
      reads this
    {
      Fields(tip, active, paused, finished, ready, dismissed, visible, enabled, closed, timer)
    }

    // The tip names the activity and the pause truthfully.
    predicate Valid()
      reads this
    {
      KindAgrees(Value())
    }

    constructor ()
      ensures Valid() && Value() == INITIAL
    {
      tip := Tip(0, ReadyTip, Standard);
      active, paused, finished, ready, dismissed, visible, closed := false, false, false, false, false, false, false;
      enabled, timer := true, None;
    }

    method SetTip(kind: Kind, message: Message, show: bool)
      modifies this
      ensures Value() == TipSet(old(Value()), kind, message, show)
    {
      if tip.kind == kind && tip.message == message {
        return;
      }
      tip := Tip(tip.revision + 1, kind, message);
      visible := show && enabled;
      timer := None;
      ScheduleHide();
    }

    method ScheduleHide()
      modifies this
      ensures Value() == HideScheduled(old(Value()))
    {
      if !ready || !visible || !enabled {
        return;
      }
      timer := Some(tip.revision);
    }

    method FinishRun(failed: bool, needsAttention: bool)
      modifies this
      ensures Value() == Finished(old(Value()), failed, needsAttention)
    {
      active, finished := false, true;
      var kind := DoneTip;
      if failed {
        kind := ErrorTip;
        dismissed := false;
      } else if needsAttention {
        kind := WarningTip;
        dismissed := false;
      }
      SetTip(kind, Standard, !dismissed);
    }

    method ChangeState(state: SchedulerState)
      modifies this
      ensures Value() == StateChanged(old(Value()), state)
    {
      match state
      case Updating =>
        if !active {
          active, finished, dismissed, paused := true, false, false, false;
          SetTip(SyncingTip, Standard, true);
        }
      case Paused =>
        paused := true;
        if !active && tip.kind != ErrorTip && tip.kind != WarningTip {
          SetTip(PausedTip, Standard, true);
        }
      case Idle =>
        paused := false;
        if !active && tip.kind != ErrorTip && tip.kind != WarningTip {
          SetTip(ReadyTip, Standard, false);
        }
      case _ =>
        if !finished {
          FinishRun(state == Failed, false);
        }
    }

    method State(state: SchedulerState) returns (update: Option<Update>)
      requires Valid()
      modifies this
      ensures Valid() && Results(old(Value()), Operation.State(state), Value(), update)
    {
      RevisionDeterminesUpdate(Value(), Operation.State(state));
      if closed {
        return None;
      }
      ChangeState(state);
      update := Some(CurrentUpdate(Value()));
    }

    method Progress(stage: Stage) returns (update: Option<Update>)
      requires Valid()
      modifies this
      ensures Valid() && Results(old(Value()), Operation.Progress(stage), Value(), update)
    {
      RevisionDeterminesUpdate(Value(), Operation.Progress(stage));
      var kind := StageKind(stage);
      if stage == Complete {
        return None;
      }
      if closed || !active {
        return None;
      }
      var message := Standard;
      if paused {
        message := FinishingWhilePaused;
      }
      SetTip(kind, message, !dismissed);
      update := Some(CurrentUpdate(Value()));
    }

    method Finish(failed: bool, needsAttention: bool) returns (update: Option<Update>)
      requires Valid()
      modifies this
      ensures Valid() && Results(old(Value()), Operation.Finish(failed, needsAttention), Value(), update)
    {
      RevisionDeterminesUpdate(Value(), Operation.Finish(failed, needsAttention));
      if closed {
        return None;
      }
      FinishRun(failed, needsAttention);
      update := Some(CurrentUpdate(Value()));
    }

    method Reviewed(needsAttention: bool) returns (update: Option<Update>)
      requires Valid()
      modifies this
      ensures Valid() && Results(old(Value()), Operation.Reviewed(needsAttention), Value(), update)
    {
      RevisionDeterminesUpdate(Value(), Operation.Reviewed(needsAttention));
      if closed || needsAttention || tip.kind != WarningTip {
        return None;
      }
      SetTip(DoneTip, NoticesReviewed, false);
      update := Some(CurrentUpdate(Value()));
    }

    method Ready() returns (update: Option<Update>)
      requires Valid()
      modifies this
      ensures Valid() && Results(old(Value()), Operation.Ready, Value(), update)
    {
      RevisionDeterminesUpdate(Value(), Operation.Ready);
      if closed || ready {
        return None;
      }
      ready := true;
      tip := tip.(revision := tip.revision + 1);
      ScheduleHide();
      update := Some(CurrentUpdate(Value()));
    }

    method Dismiss() returns (update: Option<Update>)
      requires Valid()
      modifies this
      ensures Valid() && Results(old(Value()), Operation.Dismiss, Value(), update)
    {
      RevisionDeterminesUpdate(Value(), Operation.Dismiss);
      if closed {
        return None;
      }
      dismissed, visible := true, false;
      tip := tip.(revision := tip.revision + 1);
      timer := None;
      update := Some(CurrentUpdate(Value()));
    }

    method SetEnabled(on: bool) returns (update: Option<Update>)
      requires Valid()
      modifies this
      ensures Valid() && Results(old(Value()), Operation.SetEnabled(on), Value(), update)
    {
      RevisionDeterminesUpdate(Value(), Operation.SetEnabled(on));
      if closed || enabled == on {
        return None;
      }
      enabled, visible := on, false;
      tip := tip.(revision := tip.revision + 1);
      timer := None;
      update := Some(CurrentUpdate(Value()));
    }

    method Close()
      requires Valid()
      modifies this
      ensures Valid() && Results(old(Value()), Operation.Close, Value(), None)
    {
      RevisionDeterminesUpdate(Value(), Operation.Close);
      closed := true;
      timer := None;
    }

    // The callback of a hide timer, which may come after its timer was stopped.
    method HideAfter(revision: nat) returns (update: Option<Update>)
      requires Valid()
      modifies this
      ensures Valid() && Results(old(Value()), TimerFires(revision), Value(), update)
    {
      RevisionDeterminesUpdate(Value(), TimerFires(revision));
      if closed || tip.revision != revision {
        return None;
      }
      visible := false;
      tip := tip.(revision := tip.revision + 1);
      update := Some(CurrentUpdate(Value()));
    }
  }
}

// internal/tray/feedback.go: operations, timers and deliveries interleaved.
module FeedbackRuns {
  import opened Strings
  import opened TrayFeedback

  // pending updates wait for the delivery mutex; holder has it and has found its
  // update current, but has not rendered it yet.
  datatype World = World(fields: Fields, pending: multiset<Update>, holder: Option<Update>, rendered: seq<Update>)

  datatype Step =
    | Perform(operation: Operation)
    | TakeDelivery(update: Update)
    | Render

  predicate NewerThanRendered(world: World, update: Update) {
    world.rendered == [] || update.tip.revision > world.rendered[|world.rendered| - 1].tip.revision
  }

  function Next(world: World, step: Step): World {
    match step
    case Perform(operation) =>
      var next := world.(fields := Performed(world.fields, operation));
      if Delivers(world.fields, operation) then next.(pending := world.pending + multiset{CurrentUpdate(next.fields)})
          else next
    case TakeDelivery(update) =>
      if update !in world.pending || world.holder.Some? then world
      else
        var taken := world.(pending := world.pending - multiset{update});
        if !world.fields.closed && update.tip.revision == world.fields.tip.revision && NewerThanRendered(world, update)
        then taken.(holder := Some(update)) else taken
    case Render =>
      if world.holder.Some? then world.(holder := None, rendered := world.rendered + [world.holder.value]) else world
  }

  function After(world: World, steps: seq<Step>): World {
    if steps == [] then world else Next(After(world, steps[..|steps| - 1]), steps[|steps| - 1])
  }

  const START := World(INITIAL, multiset{}, None, [])

  ghost predicate Increasing(updates: seq<Update>) {
    forall i, j :: 0 <= i < j < |updates| ==> updates[i].tip.revision < updates[j].tip.revision
  }

  // An update that was current at some moment: if it still carries the current
  // revision, it still is the current update.
  predicate Faithful(world: World, update: Update) {
    && update.tip.revision <= world.fields.tip.revision
    && (update.tip.revision == world.fields.tip.revision ==> update == CurrentUpdate(world.fields))
  }

  // The current update is on its way or was the last one rendered.
  predicate OnItsWay(world: World) {
    || CurrentUpdate(world.fields) in world.pending
    || world.holder == Some(CurrentUpdate(world.fields))
    || (world.rendered != [] && world.rendered[|world.rendered| - 1] == CurrentUpdate(world.fields))
  }

  ghost predicate Inv(world: World) {
    && KindAgrees(world.fields)
    && Increasing(world.rendered)
    && (world.holder.Some? ==> NewerThanRendered(world, world.holder.value) && Faithful(world, world.holder.value))
    && (forall update :: update in world.pending ==> Faithful(world, update))
    && (forall i :: 0 <= i < |world.rendered| ==> Faithful(world, world.rendered[i]))
    && (world.fields.tip.revision > 0 && !world.fields.closed ==> OnItsWay(world))
  }

  lemma PerformKeepsInv(world: World, operation: Operation)
    requires Inv(world)
    ensures Inv(Next(world, Perform(operation)))
  {
    var next := Next(world, Perform(operation));
    RevisionDeterminesUpdate(world.fields, operation);
    forall update | Faithful(world, update)
      ensures Faithful(next, update)
    {
    }
    if Delivers(world.fields, operation) {
      assert CurrentUpdate(next.fields) in next.pending;
    }
  }

  lemma TakeKeepsInv(world: World, update: Update)
    requires Inv(world)
    ensures Inv(Next(world, TakeDelivery(update)))
  {
    var next := Next(world, TakeDelivery(update));
    if update in world.pending && world.holder.None? && !world.fields.closed && world.fields.tip.revision > 0 {
      assert Faithful(world, update);
      if CurrentUpdate(world.fields) in world.pending && CurrentUpdate(world.fields) != update {
        assert CurrentUpdate(world.fields) in next.pending;
      }
      if update == CurrentUpdate(world.fields) && !NewerThanRendered(world, update) {
        assert Faithful(world, world.rendered[|world.rendered| - 1]);
      }
    }
  }

  lemma RenderKeepsInv(world: World)
    requires Inv(world)
    ensures Inv(Next(world, Render))
  {
    var next := Next(world, Render);
    if world.holder.Some? {
      forall i, j | 0 <= i < j < |next.rendered|
        ensures next.rendered[i].tip.revision < next.rendered[j].tip.revision
      {
        if j == |world.rendered| {
          var last := world.rendered[|world.rendered| - 1];
          assert i < |world.rendered| - 1 ==> world.rendered[i].tip.revision < last.tip.revision;
        }
      }
    }
  }

  lemma {:induction false} RunKeepsInv(steps: seq<Step>)
    ensures Inv(After(START, steps))
  {
    if steps != [] {
      var before, step := After(START, steps[..|steps| - 1]), steps[|steps| - 1];
      RunKeepsInv(steps[..|steps| - 1]);
      match step
      case Perform(operation) => PerformKeepsInv(before, operation);
      case TakeDelivery(update) => TakeKeepsInv(before, update);
      case Render => RenderKeepsInv(before);
    }
  }

  // What the tray is told: revisions only go up; and once deliveries have come to
  // rest on an open feedback, the last thing rendered is the current state.
  lemma RenderedIsCurrent(steps: seq<Step>)
    ensures var last := After(START, steps);
            && Increasing(last.rendered)
            && (last.pending == multiset{} && last.holder.None? && !last.fields.closed && last.rendered != [] ==>
                  last.rendered[|last.rendered| - 1] == CurrentUpdate(last.fields))
  {
    RunKeepsInv(steps);
    var last := After(START, steps);
    if last.rendered != [] && last.fields.tip.revision == 0 {
      assert Faithful(last, last.rendered[|last.rendered| - 1]);
    }
  }

  // Deliveries come to rest: the holder renders, and every waiting update is taken,
  // whether it is rendered or not.
  lemma DeliveriesProgress(world: World, update: Update)
    ensures world.holder.Some? ==>
              var next := Next(world, Render);
              next.holder == None && next.rendered == world.rendered + [world.holder.value]
    ensures world.holder.None? && update in world.pending ==>
              Next(world, TakeDelivery(update)).pending == world.pending - multiset{update}
  {
  }

  // And once they have, whatever the revision, the current state was rendered.
  lemma SomethingIsRendered(steps: seq<Step>)
    ensures var last := After(START, steps);
            last.pending == multiset{} && last.holder.None? && !last.fields.closed && last.fields.tip.revision > 0 ==>
              last.rendered != [] && last.rendered[|last.rendered| - 1] == CurrentUpdate(last.fields)
  {
    RunKeepsInv(steps);
  }

  lemma {:induction false} RevisionsGrow(world: World, steps: seq<Step>)
    requires KindAgrees(world.fields)
    ensures KindAgrees(After(world, steps).fields)
            && After(world, steps).fields.tip.revision >= world.fields.tip.revision
    ensures After(world, steps).fields.tip.revision == world.fields.tip.revision ==>
              CurrentUpdate(After(world, steps).fields) == CurrentUpdate(world.fields)
  {
    if steps != [] {
      var before, step := After(world, steps[..|steps| - 1]), steps[|steps| - 1];
      RevisionsGrow(world, steps[..|steps| - 1]);
      if step.Perform? {
        RevisionDeterminesUpdate(before.fields, step.operation);
      }
    }
  }

  // At any two moments of any run: the same revision means the same update.
  lemma SameRevisionSameUpdate(early: seq<Step>, late: seq<Step>)
    ensures var before, now := After(START, early).fields, After(After(START, early), late).fields;
            before.tip.revision == now.tip.revision ==> CurrentUpdate(before) == CurrentUpdate(now)
  {
    RunKeepsInv(early);
    RevisionsGrow(After(START, early), late);
  }

  // A hide timer whose revision has passed never does anything again.
  lemma StaleTimerIsDead(early: seq<Step>, late: seq<Step>, revision: nat)
    ensures var last := After(After(START, early), late);
            revision < After(START, early).fields.tip.revision ==> Next(last, Perform(TimerFires(revision))) == last
  {
    RunKeepsInv(early);
    RevisionsGrow(After(START, early), late);
  }
}
