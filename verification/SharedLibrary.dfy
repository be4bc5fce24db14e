// internal/sharedlibrary: applying library entries to the targets of this
// computer, with an ownership record that lets every change be taken back.
module SharedLibrary {
  import opened Strings

  datatype File = File(data: string, mode: nat)

  type Tree = map<string, File>

  datatype Kind = Skills | Instructions
  datatype Harness = Claude | Common | Copilot

  // What an ownership record is kept for: one place where an entry is installed.
  datatype Target = Target(kind: Kind, name: string, harness: Harness)

  datatype Entry = Entry(kind: Kind, name: string)

  datatype Action = Import | Apply | Restore | Detach

  datatype Request = Request(action: Action, target: Target)

  // original is the target before it was first owned, applied what was written
  // last, previous what it replaced while that write is pending.
  datatype Record = Record(original: Tree, applied: Tree, previous: Tree, pending: bool)

  datatype Disk = Disk(targets: map<Target, Tree>, sources: map<Entry, Tree>, privateCopies: set<string>,
                       records: map<Target, Record>)

  function TreeOf(disk: Disk, target: Target): Tree {
    if target in disk.targets then disk.targets[target] else map[]
  }

  function SourceOf(disk: Disk, target: Target): Tree {
    var entry := Entry(target.kind, target.name);
    if entry in disk.sources then disk.sources[entry] else map[]
  }

  // The mappings that the library supports; a copilot skill can only be imported.
  predicate Supported(request: Request) {
    match request.target.kind
    case Skills => request.target.harness != Copilot || request.action == Import
    case Instructions => request.target.name == "global" && request.target.harness == Claude
  }

  predicate Recoverable(current: Tree, rec: Record) {
    if !rec.pending then current == rec.applied
    else
      && (forall rel :: rel in current ==>
            Some(current[rel]) == Lookup(rec.applied, rel) || Some(current[rel]) == Lookup(rec.previous, rel))
      && (forall rel :: rel in rec.applied ==> rel !in current ==> rel !in rec.previous)
  }

  predicate Installable(kind: Kind, tree: Tree) {
    tree != map[] && (kind == Skills ==> "SKILL.md" in tree)
  }

  datatype Change = Change(before: Tree, after: Tree)

  // What a request would change, or nothing when it is refused.
  function Prepare(disk: Disk, request: Request): Option<Change> {
    var target := request.target;
    var tree, source := TreeOf(disk, target), SourceOf(disk, target);
    if !Supported(request) then None
    else match request.action
      case Import =>
        if Installable(target.kind, tree) then Some(Change(source, tree)) else None
      case Apply =>
        if target.kind == Skills && target.harness == Common && target.name in disk.privateCopies then None
        else if target in disk.records && (disk.records[target].pending || tree != disk.records[target].applied)
            then None
        else if Installable(target.kind, source) then Some(Change(tree, source)) else None
      case Restore =>
        if target in disk.records && Recoverable(tree, disk.records[target])
            then Some(Change(tree, disk.records[target].original)) else None
      case Detach =>
        if target in disk.records then Some(Change(map[], map[])) else None
  }

  // A plan's digest covers the request, the change and the ownership records.
  datatype PlanId = PlanId(request: Request, change: Change, records: map<Target, Record>)

  // ---- The states an operation passes through ----

  // Every file is as in one tree or as in the other.
  ghost predicate Mixes(current: Tree, one: Tree, other: Tree) {
    forall rel :: Lookup(current, rel) == Lookup(one, rel) || Lookup(current, rel) == Lookup(other, rel)
  }

  function Claim(disk: Disk, target: Target, change: Change): Record {
    Record(if target in disk.records then disk.records[target].original else change.before,
           change.after, change.before, true)
  }

  predicate OnlyTarget(before: Disk, after: Disk, target: Target) {
    && after.sources == before.sources && after.privateCopies == before.privateCopies
    && (forall other :: other in before.targets.Keys + after.targets.Keys && other != target ==>
          TreeOf(after, other) == TreeOf(before, other))
  }

  // A prepared apply or restore that has claimed the target and is writing it.
  ghost predicate Writing(before: Disk, target: Target, change: Change, state: Disk) {
    && OnlyTarget(before, state, target)
    && state.records == before.records[target := Claim(before, target, change)]
    && Mixes(TreeOf(state, target), change.before, change.after)
  }

  predicate OnlySource(before: Disk, after: Disk, target: Target) {
    && after == before.(sources := after.sources)
    && (forall entry ::
          entry in before.sources.Keys + after.sources.Keys && entry != Entry(target.kind, target.name) ==>
            Lookup(after.sources, entry) == Lookup(before.sources, entry))
  }

  // A prepared import that is writing the library's entry.
  ghost predicate Importing(before: Disk, target: Target, change: Change, state: Disk) {
    OnlySource(before, state, target) && Mixes(SourceOf(state, target), change.before, change.after)
  }

  predicate Completes(before: Disk, request: Request, change: Change, after: Disk) {
    var target := request.target;
    match request.action
    case Import =>
      OnlySource(before, after, target) && SourceOf(after, target) == change.after
    case Detach =>
      after == before.(records := before.records - {target})
    case Apply =>
      && OnlyTarget(before, after, target) && TreeOf(after, target) == change.after
      && after.records == before.records[target := Claim(before, target, change).(pending := false, previous := map[])]
    case Restore =>
      && OnlyTarget(before, after, target) && TreeOf(after, target) == change.after
      && after.records == before.records - {target}
  }

  // Where a request can leave the disk: untouched, complete, or, after a crash,
  // anywhere in between.
  ghost predicate Passes(before: Disk, request: Request, state: Disk) {
    || state == before
    || (Prepare(before, request).Some? &&
        var change := Prepare(before, request).value;
        || Completes(before, request, change, state)
        || (request.action == Import && Importing(before, request.target, change, state))
        || (request.action in {Apply, Restore} && Writing(before, request.target, change, state)))
  }

  // ---- What every reachable disk satisfies ----

  ghost predicate Inv(disk: Disk) {
    forall target :: target in disk.records ==> Recoverable(TreeOf(disk, target), disk.records[target])
  }

  // A pending target is recoverable exactly when every file is as it was before
  // the interrupted operation or as that operation writes it.
  lemma RecoverableExactly(current: Tree, rec: Record)
    requires rec.pending
    ensures Recoverable(current, rec) <==> Mixes(current, rec.previous, rec.applied)
  {
    if Mixes(current, rec.previous, rec.applied) {
      forall rel | rel in current || rel in rec.applied
        ensures rel in current ==>
                  Some(current[rel]) == Lookup(rec.applied, rel) || Some(current[rel]) == Lookup(rec.previous, rel)
        ensures rel in rec.applied && rel !in current ==> rel !in rec.previous
      {
        assert Lookup(current, rel) == Lookup(rec.previous, rel) || Lookup(current, rel) == Lookup(rec.applied, rel);
      }
    }
    if Recoverable(current, rec) {
      forall rel: string
        ensures Lookup(current, rel) == Lookup(rec.previous, rel) || Lookup(current, rel) == Lookup(rec.applied, rel)
      {
      }
    }
  }

  lemma OtherTargets(before: Disk, after: Disk, target: Target, other: Target)
    requires OnlyTarget(before, after, target) && other != target
    ensures TreeOf(after, other) == TreeOf(before, other)
  {
  }

  lemma PassingKeepsInv(before: Disk, request: Request, state: Disk)
    requires Inv(before) && Passes(before, request, state)
    ensures Inv(state)
  {
    var target := request.target;
    if state != before && request.action in {Apply, Restore} {
      var change := Prepare(before, request).value;
      if target in state.records && state.records[target].pending {
        assert Mixes(TreeOf(state, target), change.before, change.after);
        RecoverableExactly(TreeOf(state, target), state.records[target]);
      }
      forall other | other in state.records && other != target
        ensures Recoverable(TreeOf(state, other), state.records[other])
      {
        OtherTargets(before, state, target, other);
      }
    }
  }

  // The original tree never changes while the record lives, and a new record's
  // original is the tree that was there.
  lemma PassingKeepsOriginals(before: Disk, request: Request, state: Disk, target: Target)
    requires Passes(before, request, state) && target in state.records
    ensures state.records[target].original
         == if target in before.records then before.records[target].original else TreeOf(before, target)
  {
  }

  // ---- Runs ----

  // Between operations the user may edit library entries and private copies, but
  // no target.
  datatype Step = Operation(request: Request) | LibraryEdit

  ghost predicate Steps(before: Disk, step: Step, after: Disk) {
    match step
    case Operation(request) => Passes(before, request, after)
    case LibraryEdit => after == before.(sources := after.sources, privateCopies := after.privateCopies)
  }

  ghost predicate IsRun(states: seq<Disk>, steps: seq<Step>) {
    && |states| == |steps| + 1 && states[0].records == map[]
    && (forall i :: 0 <= i < |steps| ==> Steps(states[i], steps[i], states[i + 1]))
  }

  lemma {:induction false} RunKeepsInv(states: seq<Disk>, steps: seq<Step>, i: nat)
    requires IsRun(states, steps) && i < |states|
    ensures Inv(states[i])
  {
    if i > 0 {
      RunKeepsInv(states, steps, i - 1);
      assert Steps(states[i - 1], steps[i - 1], states[i]);
      if steps[i - 1].Operation? {
        PassingKeepsInv(states[i - 1], steps[i - 1].request, states[i]);
      } else {
        forall target | target in states[i].records
          ensures Recoverable(TreeOf(states[i], target), states[i].records[target])
        {
          assert TreeOf(states[i], target) == TreeOf(states[i - 1], target);
        }
      }
    }
  }

  // A record that was created after state i and has lived up to state j still
  // holds the tree of state i.
  lemma {:induction false} OriginalIsFirstAdoption(states: seq<Disk>, steps: seq<Step>, i: nat, j: nat, target: Target)
    requires IsRun(states, steps) && i < j < |states|
    requires target !in states[i].records && forall k :: i < k <= j ==> target in states[k].records
    ensures states[j].records[target].original == TreeOf(states[i], target)
  {
    assert Steps(states[j - 1], steps[j - 1], states[j]);
    if steps[j - 1].Operation? {
      PassingKeepsOriginals(states[j - 1], steps[j - 1].request, states[j], target);
    }
    if j - 1 > i {
      OriginalIsFirstAdoption(states, steps, i, j - 1, target);
    }
  }

  // Over every run of applies, refreshes, restores, imports and detaches, each of
  // them crashed anywhere: an owned target can always be restored, and a restore
  // that completes leaves exactly the tree that was there before the first apply.
  lemma RestoreAlwaysWorks(states: seq<Disk>, steps: seq<Step>, i: nat, j: nat, target: Target)
    requires IsRun(states, steps) && i < j < |states| && Supported(Request(Restore, target))
    requires target !in states[i].records && forall k :: i < k <= j ==> target in states[k].records
    ensures Prepare(states[j], Request(Restore, target)).Some?
    ensures forall after :: Completes(states[j], Request(Restore, target),
                                      Prepare(states[j], Request(Restore, target)).value, after) ==>
              TreeOf(after, target) == TreeOf(states[i], target) && target !in after.records
  {
    RunKeepsInv(states, steps, j);
    OriginalIsFirstAdoption(states, steps, i, j, target);
  }

  // Nothing less is enough: a restore is prepared if and only if every file of the
  // target is as the manager left it or meant to leave it, so a target that was edited
  // from outside is neither restored nor overwritten.
  lemma EditedTargetIsRefused(disk: Disk, target: Target)
    requires target in disk.records && Supported(Request(Restore, target))
    ensures var tree, rec := TreeOf(disk, target), disk.records[target];
            var untouched := if rec.pending then Mixes(tree, rec.previous, rec.applied) else tree == rec.applied;
            && (Prepare(disk, Request(Restore, target)).Some? <==> untouched)
            && (!untouched ==> Prepare(disk, Request(Apply, target)).None?)
  {
    if disk.records[target].pending {
      RecoverableExactly(TreeOf(disk, target), disk.records[target]);
    }
  }

  // ---- What requests do ----

  // A tree that can become a skill or an instruction file.
  predicate IsComplete(kind: Kind, tree: Tree) {
    |tree| > 0 && (kind == Skills ==> "SKILL.md" in tree)
  }

  // A skill can be applied for Claude and for the harnesses in common, the global
  // instructions for Claude; a skill can be imported from Copilot too.
  predicate HasPlace(target: Target, importing: bool) {
    || (target.kind == Skills && (target.harness == Claude || target.harness == Common || importing))
    || (target == Target(Instructions, "global", Claude))
  }

  // Exactly these requests are accepted.
  ghost predicate Accepted(disk: Disk, request: Request) {
    var target := request.target;
    HasPlace(target, request.action == Import) &&
    match request.action
    case Import => IsComplete(target.kind, TreeOf(disk, target))
    case Apply =>
      && IsComplete(target.kind, SourceOf(disk, target))
      && !(target.kind == Skills && target.harness == Common && target.name in disk.privateCopies)
      && (target in disk.records ==>
            !disk.records[target].pending && TreeOf(disk, target) == disk.records[target].applied)
    case Restore =>
      target in disk.records &&
      var rec := disk.records[target];
      if rec.pending then Mixes(TreeOf(disk, target), rec.previous, rec.applied)
      else TreeOf(disk, target) == rec.applied
    case Detach => target in disk.records
  }

  lemma AcceptedExactly(disk: Disk, request: Request)
    ensures Prepare(disk, request).Some? <==> Accepted(disk, request)
  {
    var target := request.target;
    if target in disk.records && disk.records[target].pending {
      RecoverableExactly(TreeOf(disk, target), disk.records[target]);
    }
  }

  // A completed apply gives the target the library's tree and records it, with what
  // was there before the first one; a completed import gives the library the target's
  // tree; a completed restore gives the target its first tree back; and nothing else
  // changes.
  ghost predicate Does(before: Disk, request: Request, after: Disk) {
    var target := request.target;
    match request.action
    case Import =>
      && after.targets == before.targets && after.records == before.records
      && after.privateCopies == before.privateCopies
      && SourceOf(after, target) == TreeOf(before, target)
      && forall other: Target :: Entry(other.kind, other.name) != Entry(target.kind, target.name) ==>
           SourceOf(after, other) == SourceOf(before, other)
    case Apply =>
      && OnlyTarget(before, after, target) && TreeOf(after, target) == SourceOf(before, target)
      && after.records
         == before.records[target := Record(if target in before.records then before.records[target].original
                                            else TreeOf(before, target),
                                            SourceOf(before, target), map[], false)]
    case Restore =>
      && OnlyTarget(before, after, target) && target in before.records
      && TreeOf(after, target) == before.records[target].original
      && after.records == before.records - {target}
    case Detach => after == before.(records := before.records - {target})
  }

  lemma CompletedDoes(before: Disk, request: Request, after: Disk)
    requires Prepare(before, request).Some? && Completes(before, request, Prepare(before, request).value, after)
    ensures Does(before, request, after)
  {
    if request.action == Import {
      forall other: Target | Entry(other.kind, other.name) != Entry(request.target.kind, request.target.name)
        ensures SourceOf(after, other) == SourceOf(before, other)
      {
        assert Entry(other.kind, other.name) in before.sources.Keys + after.sources.Keys ==>
                 Lookup(after.sources, Entry(other.kind, other.name))
                 == Lookup(before.sources, Entry(other.kind, other.name));
      }
    }
  }

  // ---- The manager ----

  class Manager {
    var targets: map<Target, Tree>
    var sources: map<Entry, Tree>
    var privateCopies: set<string>
    var records: map<Target, Record>
    // Every disk state since the start, one for each atomic write or removal.
    ghost var history: seq<Disk>

    function Image(): Disk
      reads this
    {
      Disk(targets, sources, privateCopies, records)
    }

    ghost predicate HistoryPasses(past: seq<Disk>, before: Disk, request: Request)
      reads this
    {
      past <= history && forall i :: |past| <= i < |history| ==> Passes(before, request, history[i])
    }

    method Save(newRecords: map<Target, Record>)
      modifies `records, `history
      ensures Image() == old(Image()).(records := newRecords) && history == old(history) + [Image()]
    {
      records := newRecords;
      history := history + [Image()];
    }

    method PutFile(target: Target, rel: string, content: Option<File>)
      modifies `targets, `history
      ensures OnlyTarget(old(Image()), Image(), target)
      ensures forall other :: Lookup(TreeOf(Image(), target), other) ==
                if other == rel then content else old(Lookup(TreeOf(Image(), target), other))
      ensures history == old(history) + [Image()]
    {
      var tree := TreeOf(Image(), target);
      targets := targets[target := if content.Some? then tree[rel := content.value] else tree - {rel}];
      history := history + [Image()];
    }

    // One write or removal of writeTree, on a claimed target.
    method WriteOne(request: Request, change: Change, rel: string, ghost start: Disk, ghost past: seq<Disk>)
      requires request.action in {Apply, Restore} && Prepare(start, request) == Some(change)
      requires Writing(start, request.target, change, Image()) && HistoryPasses(past, start, request)
      modifies `targets, `history
      ensures Writing(start, request.target, change, Image()) && HistoryPasses(past, start, request)
      ensures forall other :: Lookup(TreeOf(Image(), request.target), other) ==
                if other == rel then Lookup(change.after, rel) else old(Lookup(TreeOf(Image(), request.target), other))
    {
      ghost var before := Image();
      PutFile(request.target, rel, Lookup(change.after, rel));
      StillWriting(start, request.target, change, before, Image(), rel);
    }

    method WriteNew(request: Request, change: Change, ghost start: Disk, ghost past: seq<Disk>)
      requires request.action in {Apply, Restore} && Prepare(start, request) == Some(change)
      requires Writing(start, request.target, change, Image()) && TreeOf(Image(), request.target) == change.before
      requires HistoryPasses(past, start, request)
      modifies `targets, `history
      ensures Writing(start, request.target, change, Image()) && HistoryPasses(past, start, request)
      ensures forall rel :: Lookup(TreeOf(Image(), request.target), rel) ==
                if rel in change.after then Lookup(change.after, rel) else Lookup(change.before, rel)
    {
      var names := change.after.Keys;
      while names != {}
        invariant names <= change.after.Keys
        invariant Writing(start, request.target, change, Image()) && HistoryPasses(past, start, request)
        invariant forall rel :: Lookup(TreeOf(Image(), request.target), rel) ==
                    if rel in change.after && rel !in names then Lookup(change.after, rel)
                        else Lookup(change.before, rel)
        decreases names
      {
        var rel :| rel in names;
        if Lookup(change.before, rel) != Some(change.after[rel]) {
          WriteOne(request, change, rel, start, past);
        }
        names := names - {rel};
      }
    }

    method RemoveOld(request: Request, change: Change, ghost start: Disk, ghost past: seq<Disk>)
      requires request.action in {Apply, Restore} && Prepare(start, request) == Some(change)
      requires Writing(start, request.target, change, Image()) && HistoryPasses(past, start, request)
      requires forall rel :: Lookup(TreeOf(Image(), request.target), rel) ==
                 if rel in change.after then Lookup(change.after, rel) else Lookup(change.before, rel)
      modifies `targets, `history
      ensures Writing(start, request.target, change, Image()) && TreeOf(Image(), request.target) == change.after
      ensures HistoryPasses(past, start, request)
    {
      var names := change.before.Keys - change.after.Keys;
      while names != {}
        invariant names <= change.before.Keys - change.after.Keys
        invariant Writing(start, request.target, change, Image()) && HistoryPasses(past, start, request)
        invariant forall rel :: Lookup(TreeOf(Image(), request.target), rel) ==
                    if rel in names then Lookup(change.before, rel) else Lookup(change.after, rel)
        decreases names
      {
        var rel :| rel in names;
        WriteOne(request, change, rel, start, past);
        names := names - {rel};
      }
      LookupExtensional(TreeOf(Image(), request.target), change.after);
    }

    method PutSource(request: Request, change: Change, rel: string, ghost start: Disk, ghost past: seq<Disk>)
      requires request.action == Import && Prepare(start, request) == Some(change)
      requires Importing(start, request.target, change, Image()) && HistoryPasses(past, start, request)
      modifies `sources, `history
      ensures Importing(start, request.target, change, Image()) && HistoryPasses(past, start, request)
      ensures forall other :: Lookup(SourceOf(Image(), request.target), other) ==
                if other == rel then Lookup(change.after, rel)
                    else old(Lookup(SourceOf(Image(), request.target), other))
    {
      var target := request.target;
      var tree := SourceOf(Image(), target);
      var entry := Entry(target.kind, target.name);
      sources := sources[entry := if rel in change.after then tree[rel := change.after[rel]] else tree - {rel}];
      history := history + [Image()];
    }

    // writeTree into the library, for an import: the ownership and the targets stay.
    method WriteSource(request: Request, change: Change, ghost start: Disk, ghost past: seq<Disk>)
      requires request.action == Import && Prepare(start, request) == Some(change) && Image() == start
      requires HistoryPasses(past, start, request)
      modifies `sources, `history
      ensures Completes(start, request, change, Image()) && HistoryPasses(past, start, request)
    {
      var names := change.after.Keys;
      while names != {}
        invariant names <= change.after.Keys
        invariant Importing(start, request.target, change, Image()) && HistoryPasses(past, start, request)
        invariant forall rel :: Lookup(SourceOf(Image(), request.target), rel) ==
                    if rel in change.after && rel !in names then Lookup(change.after, rel)
                        else Lookup(change.before, rel)
        decreases names
      {
        var rel :| rel in names;
        if Lookup(change.before, rel) != Some(change.after[rel]) {
          PutSource(request, change, rel, start, past);
        }
        names := names - {rel};
      }
      names := change.before.Keys - change.after.Keys;
      while names != {}
        invariant names <= change.before.Keys - change.after.Keys
        invariant Importing(start, request.target, change, Image()) && HistoryPasses(past, start, request)
        invariant forall rel :: Lookup(SourceOf(Image(), request.target), rel) ==
                    if rel in names then Lookup(change.before, rel) else Lookup(change.after, rel)
        decreases names
      {
        var rel :| rel in names;
        PutSource(request, change, rel, start, past);
        names := names - {rel};
      }
      LookupExtensional(SourceOf(Image(), request.target), change.after);
    }

    // The claim is saved before the first write.
    method TakeClaim(request: Request, change: Change)
      requires request.action in {Apply, Restore} && Prepare(Image(), request) == Some(change)
      modifies `records, `history
      ensures Writing(old(Image()), request.target, change, Image()) && TreeOf(Image(), request.target) == change.before
      ensures HistoryPasses(old(history), old(Image()), request)
    {
      Save(records[request.target := Claim(Image(), request.target, change)]);
    }

    // And released after the last one.
    method ReleaseClaim(request: Request, change: Change, ghost start: Disk, ghost past: seq<Disk>)
      requires request.action in {Apply, Restore} && Prepare(start, request) == Some(change)
      requires Writing(start, request.target, change, Image()) && TreeOf(Image(), request.target) == change.after
      requires HistoryPasses(past, start, request)
      modifies `records, `history
      ensures Completes(start, request, change, Image()) && HistoryPasses(past, start, request)
    {
      var target := request.target;
      var settled := records[target := records[target].(pending := false, previous := map[])];
      if request.action == Restore {
        settled := settled - {target};
      }
      Save(settled);
      assert Completes(start, request, change, Image());
    }

    method ClaimAndWrite(request: Request, change: Change)
      requires request.action in {Apply, Restore} && Prepare(Image(), request) == Some(change)
      modifies `targets, `records, `history
      ensures Completes(old(Image()), request, change, Image())
      ensures HistoryPasses(old(history), old(Image()), request)
    {
      ghost var start, past := Image(), history;
      TakeClaim(request, change);
      WriteNew(request, change, start, past);
      RemoveOld(request, change, start, past);
      ReleaseClaim(request, change, start, past);
    }

    // Manager.Apply: does exactly what its preview showed, or nothing when
    // anything that the preview depended on has changed.
    method Run(request: Request, id: PlanId) returns (done: bool)
      modifies this
      ensures done <==> Prepare(old(Image()), request).Some?
                        && id == PlanId(request, Prepare(old(Image()), request).value, old(records))
      ensures done ==> Completes(old(Image()), request, id.change, Image())
      ensures done ==> Accepted(old(Image()), request) && Does(old(Image()), request, Image())
      ensures !done ==> Image() == old(Image()) && history == old(history)
      ensures HistoryPasses(old(history), old(Image()), request)
    {
      var prepared := Prepare(Image(), request);
      if prepared.None? || id != PlanId(request, prepared.value, records) {
        return false;
      }
      done := true;
      ghost var start := Image();
      AcceptedExactly(start, request);
      match request.action {
        case Import =>
          WriteSource(request, prepared.value, Image(), history);
        case Detach =>
          Save(records - {request.target});
        case _ =>
          ClaimAndWrite(request, prepared.value);
      }
      CompletedDoes(start, request, Image());
    }

    // Previews and applies one owned target.
    method RefreshOne(target: Target) returns (done: bool)
      requires target in records
      modifies this
      ensures done <==> Prepare(old(Image()), Request(Apply, target)).Some?
      ensures Stayed(old(Image()), Image(), target, done)
      ensures forall other :: other in old(records) && other != target ==> Stayed(old(Image()), Image(), other, false)
      ensures records.Keys == old(records).Keys && sources == old(sources) && privateCopies == old(privateCopies)
    {
      ghost var before := Image();
      var request := Request(Apply, target);
      var plan := Prepare(Image(), request);
      if plan.None? {
        return false;
      }
      done := Run(request, PlanId(request, plan.value, records));
      forall other | other in before.records && other != target
        ensures Stayed(before, Image(), other, false)
      {
        OtherTargets(before, Image(), target, other);
      }
    }

    // Refresh: re-applies every owned target, in whatever order the records come,
    // and goes on when one is refused.
    method Refresh(skills: bool, instructions: bool) returns (failures: set<Target>)
      modifies this
      ensures forall target :: target in failures <==>
                target in old(records) && Refreshed(skills, instructions, target)
                    && Prepare(old(Image()), Request(Apply, target)).None?
      ensures BringsUpToDate(old(Image()), skills, instructions, failures, Image())
      ensures records.Keys == old(records).Keys && sources == old(sources)
      ensures forall target :: target in records ==>
                Stayed(old(Image()), Image(), target,
                       Refreshed(skills, instructions, target) && Prepare(old(Image()), Request(Apply, target)).Some?)
    {
      failures := {};
      var names := records.Keys;
      while names != {}
        invariant names <= old(records).Keys
        invariant RefreshedBut(old(Image()), Image(), skills, instructions, names)
        invariant forall target :: target in failures <==>
                    target in old(records) - names && Refreshed(skills, instructions, target)
                        && Prepare(old(Image()), Request(Apply, target)).None?
        decreases names
      {
        var target :| target in names;
        ghost var before := Image();
        StillToCome(old(Image()), before, skills, instructions, names, target);
        if Refreshed(skills, instructions, target) {
          var done := RefreshOne(target);
          if !done {
            failures := failures + {target};
          }
        }
        RefreshAdvances(old(Image()), before, Image(), skills, instructions, names, target);
        names := names - {target};
      }
      RefreshedAll(old(Image()), Image(), skills, instructions, failures);
    }
  }

  // What a refresh owes every owned target except those still to come.
  ghost predicate RefreshedBut(start: Disk, now: Disk, skills: bool, instructions: bool, names: set<Target>) {
    && now.records.Keys == start.records.Keys && now.sources == start.sources
       && now.privateCopies == start.privateCopies
    && (forall target :: target in start.records ==> Renewed(start, now, skills, instructions, names, target))
  }

  predicate Renewed(start: Disk, now: Disk, skills: bool, instructions: bool, names: set<Target>, target: Target) {
    Stayed(start, now, target,
           Refreshed(skills, instructions, target) && Prepare(start, Request(Apply, target)).Some? && target !in names)
  }

  // Every owned target of a wanted kind has the library's tree, or could not be applied
  // and is reported; every other is as it was.
  ghost predicate BringsUpToDate(before: Disk, skills: bool, instructions: bool, failures: set<Target>, after: Disk) {
    forall target :: target in before.records ==>
      var wanted := if target.kind == Skills then skills else instructions;
      && (target in failures <==> wanted && !Accepted(before, Request(Apply, target)))
      && TreeOf(after, target)
         == (if wanted && target !in failures then SourceOf(before, target) else TreeOf(before, target))
      && target in after.records && after.records[target].original == before.records[target].original
  }

  lemma RefreshedAll(start: Disk, now: Disk, skills: bool, instructions: bool, failures: set<Target>)
    requires RefreshedBut(start, now, skills, instructions, {})
    requires forall target :: target in failures <==>
               target in start.records && Refreshed(skills, instructions, target)
                 && Prepare(start, Request(Apply, target)).None?
    ensures BringsUpToDate(start, skills, instructions, failures, now)
  {
    forall target | target in start.records
      ensures Prepare(start, Request(Apply, target)).Some? <==> Accepted(start, Request(Apply, target))
      ensures Renewed(start, now, skills, instructions, {}, target)
    {
      AcceptedExactly(start, Request(Apply, target));
    }
  }

  lemma StillToCome(start: Disk, now: Disk, skills: bool, instructions: bool, names: set<Target>, target: Target)
    requires RefreshedBut(start, now, skills, instructions, names) && target in names && target in start.records
    ensures Stayed(start, now, target, false)
    ensures Prepare(now, Request(Apply, target)) == Prepare(start, Request(Apply, target))
  {
    assert Renewed(start, now, skills, instructions, names, target);
    SamePlan(start, now, target);
  }

  lemma RefreshAdvances(start: Disk, before: Disk, after: Disk, skills: bool, instructions: bool, names: set<Target>,
                        target: Target)
    requires RefreshedBut(start, before, skills, instructions, names)
    requires after.records.Keys == before.records.Keys && after.sources == before.sources
             && after.privateCopies == before.privateCopies
    requires target in start.records && Renewed(start, after, skills, instructions, names - {target}, target)
    requires forall other :: other in before.records && other != target ==> Stayed(before, after, other, false)
    ensures RefreshedBut(start, after, skills, instructions, names - {target})
  {
    forall other | other in start.records && other != target
      ensures Renewed(start, after, skills, instructions, names - {target}, other)
    {
      assert Renewed(start, before, skills, instructions, names, other);
    }
  }

  // An owned target after a refresh: re-applied, or exactly as it was.
  predicate Stayed(before: Disk, after: Disk, target: Target, applied: bool) {
    target in before.records && target in after.records &&
    if applied then
      && TreeOf(after, target) == SourceOf(before, target)
      && after.records[target] == Record(before.records[target].original, SourceOf(before, target), map[], false)
    else TreeOf(after, target) == TreeOf(before, target) && after.records[target] == before.records[target]
  }

  lemma SamePlan(before: Disk, after: Disk, target: Target)
    requires Stayed(before, after, target, false) && after.sources == before.sources
             && after.privateCopies == before.privateCopies
    ensures Prepare(after, Request(Apply, target)) == Prepare(before, Request(Apply, target))
  {
  }

  predicate Refreshed(skills: bool, instructions: bool, target: Target) {
    if target.kind == Skills then skills else instructions
  }

  lemma StillWriting(start: Disk, target: Target, change: Change, before: Disk, after: Disk, rel: string)
    requires Writing(start, target, change, before) && OnlyTarget(before, after, target)
             && after.records == before.records
    requires forall other :: Lookup(TreeOf(after, target), other) ==
               if other == rel then Lookup(change.after, rel) else Lookup(TreeOf(before, target), other)
    ensures Writing(start, target, change, after)
  {
    forall other | other != target
      ensures TreeOf(after, other) == TreeOf(start, other)
    {
      OtherTargets(start, before, target, other);
      OtherTargets(before, after, target, other);
    }
    assert Mixes(TreeOf(before, target), change.before, change.after);
  }
}
