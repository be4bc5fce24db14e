// internal/conflict/resolution.go: applying a batch of resolutions, with a crash
// possible between any two writes.
module ConflictResolution {
  import opened Strings
  import opened ConflictJournal

  type Scanner = (Conflict, Choice, string) -> bool

  function Data(selection: Selection): string {
    match selection.choice
    case ChoiceLocal => selection.revision.local
    case ChoiceRemote => selection.revision.remote
    case ChoiceMerged => if selection.content.Some? then selection.content.value else ""
  }

  // The conflict is still there at the selected revision and the scanner lets its content pass.
  predicate Usable(scan: Scanner, conflicts: map<string, Conflict>, selection: Selection) {
    selection.id in conflicts && conflicts[selection.id] == selection.revision
        && scan(selection.revision, selection.choice, Data(selection))
  }

  predicate AllUsable(scan: Scanner, conflicts: map<string, Conflict>, selections: seq<Selection>) {
    forall i :: 0 <= i < |selections| ==> Usable(scan, conflicts, selections[i])
  }

  // How many selections are applied before the first unusable one.
  function UsableCount(scan: Scanner, conflicts: map<string, Conflict>, selections: seq<Selection>): (n: nat)
    ensures n <= |selections| && AllUsable(scan, conflicts, selections[..n])
    ensures n < |selections| ==> !Usable(scan, conflicts, selections[n])
  {
    if selections == [] then 0
    else
      var front := selections[..|selections| - 1];
      var n := UsableCount(scan, conflicts, front);
      assert selections[..n] == front[..n];
      if n < |front| || !Usable(scan, conflicts, selections[|selections| - 1]) then n else |selections|
  }

  // The canonical files after some selections, and what each one overwrote; a
  // later selection of the same path finds what the earlier one wrote.
  function Overwritten(files: map<string, string>, selections: seq<Selection>): map<string, string> {
    if selections == [] then files
    else
      var last := selections[|selections| - 1];
      Overwritten(files, selections[..|selections| - 1])[last.revision.path := Data(last)]
  }

  function OriginalOf(files: map<string, string>, selection: Selection): Entry {
    Entry(selection.revision.path, Lookup(files, selection.revision.path))
  }

  function Originals(files: map<string, string>, selections: seq<Selection>): (entries: seq<Entry>)
    ensures |entries| == |selections|
  {
    if selections == [] then []
    else
      var front := selections[..|selections| - 1];
      Originals(files, front) + [OriginalOf(Overwritten(files, front), selections[|selections| - 1])]
  }

  function WriteOps(files: map<string, string>, selections: seq<Selection>): (ops: seq<Op>)
    ensures |ops| == 2 * |selections|
  {
    if selections == [] then []
    else
      var last := selections[|selections| - 1];
      WriteOps(files, selections[..|selections| - 1])
      + [WriteJournal(Originals(files, selections)), WriteFile(last.revision.path, Data(last))]
  }

  function RemovalOps(selections: seq<Selection>): (ops: seq<Op>)
    ensures |ops| == 2 * |selections|
  {
    if selections == [] then []
    else
      var last := selections[|selections| - 1];
      RemovalOps(selections[..|selections| - 1]) + [RemoveLocalBundle(last.id), RemoveRepoBundle(last.id)]
  }

  const COMMIT := [RemovePending, RemoveFailed, RemoveView, RemoveJournal]

  predicate HasQueued(disk: Disk) {
    disk.pending.Some? && disk.pending.value.status == Queued
  }

  function Opening(disk: Disk): (ops: seq<Op>)
    requires HasQueued(disk)
    ensures |ops| == 2
  {
    [WriteView, WritePending(disk.pending.value.(status := Applying))]
  }

  // The selections that a batch writes before it commits or fails.
  function WrittenSelections(scan: Scanner, disk: Disk): seq<Selection>
    requires HasQueued(disk)
  {
    var selections := disk.pending.value.selections;
    selections[..UsableCount(scan, disk.conflicts, selections)]
  }

  predicate Commits(scan: Scanner, disk: Disk)
    requires HasQueued(disk)
  {
    UsableCount(scan, disk.conflicts, disk.pending.value.selections) == |disk.pending.value.selections|
  }

  function Ending(scan: Scanner, disk: Disk): seq<Op>
    requires HasQueued(disk)
  {
    if Commits(scan, disk) then RemovalOps(disk.pending.value.selections) + COMMIT
    else RollbackOps(Originals(disk.files, WrittenSelections(scan, disk))) + Closing(disk.pending.value)
  }

  // Every write and removal of ApplyPendingBatch, in order.
  function ApplyProgram(scan: Scanner, disk: Disk): seq<Op>
    requires HasQueued(disk)
  {
    Opening(disk) + WriteOps(disk.files, WrittenSelections(scan, disk)) + Ending(scan, disk)
  }

  // The canonical files of a completed batch.
  function Outcome(scan: Scanner, disk: Disk): map<string, string>
    requires HasQueued(disk)
  {
    if Commits(scan, disk) then Overwritten(disk.files, disk.pending.value.selections) else disk.files
  }

  lemma ProgramParts(scan: Scanner, disk: Disk, trace: seq<Op>, begun: seq<Op>, written: seq<Op>, ended: seq<Op>)
    requires HasQueued(disk) && begun == trace + Opening(disk)
    requires written == begun + WriteOps(disk.files, WrittenSelections(scan, disk))
             && ended == written + Ending(scan, disk)
    ensures ended == trace + ApplyProgram(scan, disk)
  {
    JoinFour(trace, Opening(disk), WriteOps(disk.files, WrittenSelections(scan, disk)), Ending(scan, disk));
  }

  lemma JoinFour(a: seq<Op>, b: seq<Op>, c: seq<Op>, d: seq<Op>)
    ensures a + b + c + d == a + (b + c + d)
  {
  }

  // ---- What each part of the program does ----

  lemma {:induction false} UndoWrites(files: map<string, string>, selections: seq<Selection>)
    ensures RolledBack(Overwritten(files, selections), Originals(files, selections)) == files
  {
    if selections != [] {
      var front, last := selections[..|selections| - 1], selections[|selections| - 1];
      var before := Overwritten(files, front);
      var entries := Originals(files, selections);
      assert entries[..|entries| - 1] == Originals(files, front);
      UndoneWrite(before, last.revision.path, Data(last));
      UndoWrites(files, front);
    }
  }

  lemma UndoneWrite(files: map<string, string>, path: string, data: string)
    ensures Undone(files[path := data], Entry(path, Lookup(files, path))) == files
    ensures Undone(files, Entry(path, Lookup(files, path))) == files
  {
  }

  // A journal entry whose file has not been written yet does no harm.
  lemma UndoBeforeWrite(files: map<string, string>, selections: seq<Selection>)
    requires selections != []
    ensures RolledBack(Overwritten(files, selections[..|selections| - 1]), Originals(files, selections)) == files
  {
    var front, last := selections[..|selections| - 1], selections[|selections| - 1];
    var entries := Originals(files, selections);
    assert entries[..|entries| - 1] == Originals(files, front);
    UndoneWrite(Overwritten(files, front), last.revision.path, Data(last));
    UndoWrites(files, front);
  }

  predicate IsApplying(disk: Disk) {
    disk.pending.Some? && disk.pending.value.status == Applying
  }

  lemma {:induction false} WritesRun(disk: Disk, selections: seq<Selection>)
    ensures Run(disk, WriteOps(disk.files, selections))
         == disk.(files := Overwritten(disk.files, selections),
                  journal := if selections == [] then disk.journal else Some(Originals(disk.files, selections)))
  {
    if selections != [] {
      var front, last := selections[..|selections| - 1], selections[|selections| - 1];
      WritesRun(disk, front);
      WritePairRuns(disk, WriteOps(disk.files, selections), WriteOps(disk.files, front),
                    WriteJournal(Originals(disk.files, selections)), WriteFile(last.revision.path, Data(last)));
    }
  }

  lemma WritePairRuns(disk: Disk, all: seq<Op>, ops: seq<Op>, first: Op, second: Op)
    requires all == ops + [first, second]
    ensures Run(disk, all[..|all| - 1]) == Do(Run(disk, ops), first)
    ensures Run(disk, all) == Do(Do(Run(disk, ops), first), second)
  {
    assert all[..|all| - 1] == ops + [first];
    assert all == (ops + [first]) + [second];
    RunNext(disk, ops, first);
    RunNext(disk, ops + [first], second);
  }

  lemma JournalBeforeWrite(disk: Disk, selections: seq<Selection>)
    requires selections != []
    ensures var crashed := Run(disk, WriteOps(disk.files, selections)[..2 * |selections| - 1]);
            && crashed.pending == disk.pending && crashed.conflicts == disk.conflicts
            && crashed.files == Overwritten(disk.files, selections[..|selections| - 1])
            && crashed.journal == Some(Originals(disk.files, selections))
  {
    var front, last := selections[..|selections| - 1], selections[|selections| - 1];
    WritesRun(disk, front);
    WritePairRuns(disk, WriteOps(disk.files, selections), WriteOps(disk.files, front),
                    WriteJournal(Originals(disk.files, selections)), WriteFile(last.revision.path, Data(last)));
  }

  lemma RecoveredFrom(crashed: Disk, entries: seq<Entry>)
    requires IsApplying(crashed) && crashed.journal == Some(entries)
    ensures RecoveredFiles(crashed) == RolledBack(crashed.files, entries)
  {
  }

  // Between a journal write and its file's write.
  lemma CutInLastPair(disk: Disk, selections: seq<Selection>)
    requires IsApplying(disk) && selections != []
    ensures var crashed := Run(disk, WriteOps(disk.files, selections)[..2 * |selections| - 1]);
            crashed.pending == disk.pending && crashed.conflicts == disk.conflicts
                && RecoveredFiles(crashed) == disk.files
  {
    JournalBeforeWrite(disk, selections);
    UndoBeforeWrite(disk.files, selections);
    RecoveredFrom(Run(disk, WriteOps(disk.files, selections)[..2 * |selections| - 1]),
                  Originals(disk.files, selections));
  }

  lemma CutAfterLastPair(disk: Disk, selections: seq<Selection>)
    requires IsApplying(disk) && selections != []
    ensures var crashed := Run(disk, WriteOps(disk.files, selections));
            crashed.pending == disk.pending && crashed.conflicts == disk.conflicts
                && RecoveredFiles(crashed) == disk.files
  {
    WritesRun(disk, selections);
    UndoWrites(disk.files, selections);
  }

  // Wherever the writes are cut short, rolling back gives the original files,
  // also when two selections share a path.
  lemma {:induction false} CutWrites(disk: Disk, selections: seq<Selection>, cut: nat)
    requires IsApplying(disk) && 0 < cut <= 2 * |selections|
    ensures var crashed := Run(disk, WriteOps(disk.files, selections)[..cut]);
            crashed.pending == disk.pending && crashed.conflicts == disk.conflicts
                && RecoveredFiles(crashed) == disk.files
  {
    if cut <= 2 * |selections| - 2 {
      var front := selections[..|selections| - 1];
      assert WriteOps(disk.files, selections)[..cut] == WriteOps(disk.files, front)[..cut];
      CutWrites(disk, front, cut);
    } else if cut < 2 * |selections| {
      CutInLastPair(disk, selections);
    } else {
      assert WriteOps(disk.files, selections)[..cut] == WriteOps(disk.files, selections);
      CutAfterLastPair(disk, selections);
    }
  }

  lemma {:induction false} RemovalOpIs(selections: seq<Selection>, i: nat)
    requires i < |selections|
    ensures RemovalOps(selections)[2 * i] == RemoveLocalBundle(selections[i].id)
    ensures RemovalOps(selections)[2 * i + 1] == RemoveRepoBundle(selections[i].id)
  {
    if i < |selections| - 1 {
      RemovalOpIs(selections[..|selections| - 1], i);
    }
  }

  predicate OnlyRemovals(ops: seq<Op>) {
    forall i :: 0 <= i < |ops| ==> ops[i].RemoveLocalBundle? || ops[i].RemoveRepoBundle?
  }

  lemma {:induction false} RemovalsRun(disk: Disk, ops: seq<Op>)
    requires OnlyRemovals(ops)
    ensures var after := Run(disk, ops);
            && after == disk.(conflicts := after.conflicts, mirrored := after.mirrored)
            && after.conflicts.Keys <= disk.conflicts.Keys
  {
    if ops != [] {
      assert ops[|ops| - 1].RemoveLocalBundle? || ops[|ops| - 1].RemoveRepoBundle?;
      RemovalsRun(disk, ops[..|ops| - 1]);
    }
  }

  lemma {:induction false} RemovalOpsOnlyRemove(selections: seq<Selection>)
    ensures OnlyRemovals(RemovalOps(selections))
  {
    if selections != [] {
      RemovalOpsOnlyRemove(selections[..|selections| - 1]);
    }
  }

  lemma FirstBundleGone(disk: Disk, ops: seq<Op>, id: string)
    requires OnlyRemovals(ops) && ops != [] && ops[0] == RemoveLocalBundle(id)
    ensures id !in Run(disk, ops).conflicts
  {
    assert ops == [ops[0]] + ops[1..];
    RunAppend(disk, [ops[0]], ops[1..]);
    RunNext(disk, [], ops[0]);
    assert [] + [ops[0]] == [ops[0]];
    RemovalsRun(Do(disk, ops[0]), ops[1..]);
  }

  // Removing bundles touches nothing else.
  lemma CutRemovals(disk: Disk, selections: seq<Selection>, cut: nat)
    requires cut <= 2 * |selections|
    ensures var crashed := Run(disk, RemovalOps(selections)[..cut]);
            && crashed == disk.(conflicts := crashed.conflicts, mirrored := crashed.mirrored)
            && (cut > 0 ==> selections[0].id !in crashed.conflicts)
  {
    RemovalOpsOnlyRemove(selections);
    RemovalsRun(disk, RemovalOps(selections)[..cut]);
    if cut > 0 {
      RemovalOpIs(selections, 0);
      FirstBundleGone(disk, RemovalOps(selections)[..cut], selections[0].id);
    }
  }

  lemma {:induction false} CommitRuns(disk: Disk, cut: nat)
    requires cut <= 4
    ensures var after := Run(disk, COMMIT[..cut]);
            && after.files == disk.files && after.conflicts == disk.conflicts
            && after.pending == (if cut >= 1 then None else disk.pending)
            && after.journal == (if cut >= 4 then None else disk.journal)
  {
    var ops := COMMIT;
    if cut > 0 {
      CommitRuns(disk, cut - 1);
      assert ops[..cut] == ops[..cut - 1] + [ops[cut - 1]];
      RunNext(disk, ops[..cut - 1], ops[cut - 1]);
    }
  }

  // ---- Crash atomicity ----

  // If a transaction journal is left over from an earlier batch, every path in it is
  // in the state that the journal's earliest entry for it describes.
  predicate LeftoverHarmless(disk: Disk) {
    disk.journal.None? || AllOriginal(disk.files, disk.journal.value)
  }

  lemma LeftoverHarmlessIs(disk: Disk)
    ensures LeftoverHarmless(disk) <==> disk.journal.None? || RolledBack(disk.files, disk.journal.value) == disk.files
  {
    if disk.journal.Some? {
      RollbackIsHarmlessExactly(disk.files, disk.journal.value);
    }
  }

  function Crashed(scan: Scanner, disk: Disk, cut: nat): Disk
    requires HasQueued(disk) && cut <= |ApplyProgram(scan, disk)|
  {
    Run(disk, ApplyProgram(scan, disk)[..cut])
  }

  // A crash at this point, followed by a recovery, gives the original files if
  // pending.json survived and the batch's outcome if it was removed.
  predicate AtomicAt(scan: Scanner, disk: Disk, cut: nat)
    requires HasQueued(disk) && cut <= |ApplyProgram(scan, disk)|
  {
    var crashed := Crashed(scan, disk, cut);
    Recovered(crashed).files == if crashed.pending.Some? then disk.files else Outcome(scan, disk)
  }

  function Opened(disk: Disk): Disk
    requires HasQueued(disk)
  {
    disk.(view := true, pending := Some(disk.pending.value.(status := Applying)))
  }

  lemma OpeningRuns(disk: Disk, cut: nat)
    requires HasQueued(disk) && cut <= 2
    ensures var crashed := Run(disk, Opening(disk)[..cut]);
            if cut == 2 then crashed == Opened(disk) else crashed == disk.(view := cut == 1 || disk.view)
  {
    var ops := Opening(disk);
    assert ops[..0] == [] && ops[..1] == [] + [ops[0]] && ops[..2] == ops[..1] + [ops[1]];
    RunNext(disk, [], ops[0]);
    RunNext(disk, ops[..1], ops[1]);
  }

  // The state after the writes, and the part of the program that is left.
  function Prepared(scan: Scanner, disk: Disk): Disk
    requires HasQueued(disk)
  {
    var written := WrittenSelections(scan, disk);
    Opened(disk).(files := Overwritten(disk.files, written),
                  journal := if written == [] then disk.journal else Some(Originals(disk.files, written)))
  }

  lemma CutThree(disk: Disk, first: seq<Op>, second: seq<Op>, third: seq<Op>, cut: nat)
    requires cut <= |first| + |second| + |third|
    ensures Run(disk, (first + second + third)[..cut])
         == if cut <= |first| then Run(disk, first[..cut])
            else if cut <= |first| + |second| then Run(Run(disk, first), second[..cut - |first|])
            else Run(Run(Run(disk, first), second), third[..cut - |first| - |second|])
  {
    RunCut(disk, first + second, third, cut);
    if cut <= |first| + |second| {
      RunCut(disk, first, second, cut);
    }
    RunAppend(disk, first, second);
  }

  lemma OpenedIs(disk: Disk)
    requires HasQueued(disk)
    ensures Run(disk, Opening(disk)) == Opened(disk)
  {
    assert Opening(disk)[..2] == Opening(disk);
    OpeningRuns(disk, 2);
  }

  lemma PreparedIs(scan: Scanner, disk: Disk)
    requires HasQueued(disk)
    ensures Run(Opened(disk), WriteOps(disk.files, WrittenSelections(scan, disk))) == Prepared(scan, disk)
  {
    WritesRun(Opened(disk), WrittenSelections(scan, disk));
  }

  lemma CutKnown(disk: Disk, first: seq<Op>, second: seq<Op>, third: seq<Op>, middle: Disk, late: Disk, cut: nat)
    requires cut <= |first| + |second| + |third| && Run(disk, first) == middle && Run(middle, second) == late
    ensures Run(disk, (first + second + third)[..cut])
         == if cut <= |first| then Run(disk, first[..cut])
            else if cut <= |first| + |second| then Run(middle, second[..cut - |first|])
            else Run(late, third[..cut - |first| - |second|])
  {
    CutThree(disk, first, second, third, cut);
  }

  lemma CutProgram(scan: Scanner, disk: Disk, cut: nat)
    requires HasQueued(disk) && cut <= |ApplyProgram(scan, disk)|
    ensures var writes := WriteOps(disk.files, WrittenSelections(scan, disk));
            Run(disk, ApplyProgram(scan, disk)[..cut])
            == if cut <= 2 then Run(disk, Opening(disk)[..cut])
               else if cut <= 2 + |writes| then Run(Opened(disk), writes[..cut - 2])
               else Run(Prepared(scan, disk), Ending(scan, disk)[..cut - 2 - |writes|])
  {
    OpenedIs(disk);
    PreparedIs(scan, disk);
    CutKnown(disk, Opening(disk), WriteOps(disk.files, WrittenSelections(scan, disk)), Ending(scan, disk),
             Opened(disk), Prepared(scan, disk), cut);
  }

  lemma PreparedRecovers(scan: Scanner, disk: Disk)
    requires HasQueued(disk) && LeftoverHarmless(disk)
    ensures RecoveredFiles(Prepared(scan, disk)) == disk.files
  {
    LeftoverHarmlessIs(disk);
    UndoWrites(disk.files, WrittenSelections(scan, disk));
  }

  // A crash in the ending of a batch that commits: some bundles are gone, and
  // pending.json is gone once all of them are.
  lemma CrashWhileCommitting(scan: Scanner, disk: Disk, cut: nat)
    requires HasQueued(disk) && Commits(scan, disk) && cut <= |Ending(scan, disk)|
    ensures var crashed, removals := Run(Prepared(scan, disk), Ending(scan, disk)[..cut]),
            2 * |disk.pending.value.selections|;
            && crashed.files == Outcome(scan, disk)
            && (cut <= removals ==> crashed.pending == Prepared(scan, disk).pending)
            && (cut > removals ==> crashed.pending == None)
            && (cut < removals + 4 ==> crashed.journal == Prepared(scan, disk).journal)
            && (cut > 0 && removals > 0 ==> disk.pending.value.selections[0].id !in crashed.conflicts)
  {
    var selections := disk.pending.value.selections;
    assert selections[..|selections|] == selections;
    var removals := RemovalOps(selections);
    RunCut(Prepared(scan, disk), removals, COMMIT, cut);
    assert removals[..|removals|] == removals;
    if cut <= |removals| {
      CutRemovals(Prepared(scan, disk), selections, cut);
    } else {
      CutRemovals(Prepared(scan, disk), selections, |removals|);
      CommitRuns(Run(Prepared(scan, disk), removals), cut - |removals|);
    }
  }

  lemma CutCommit(scan: Scanner, disk: Disk, cut: nat)
    requires HasQueued(disk) && LeftoverHarmless(disk) && Commits(scan, disk) && cut <= |Ending(scan, disk)|
    ensures var crashed := Run(Prepared(scan, disk), Ending(scan, disk)[..cut]);
            RecoveredFiles(crashed) == if crashed.pending.Some? then disk.files else Outcome(scan, disk)
  {
    PreparedRecovers(scan, disk);
    CrashWhileCommitting(scan, disk, cut);
    var selections := disk.pending.value.selections;
    assert selections[..|selections|] == selections;
  }

  // A crash while a failing batch is rolled back.
  lemma CutUndo(scan: Scanner, disk: Disk, cut: nat)
    requires HasQueued(disk) && LeftoverHarmless(disk) && cut <= |WrittenSelections(scan, disk)|
    ensures var crashed := Run(Prepared(scan, disk),
                               RollbackOps(Originals(disk.files, WrittenSelections(scan, disk)))[..cut]);
            RecoveredFiles(crashed) == disk.files && crashed.pending.Some?
  {
    var prepared := Prepared(scan, disk);
    var entries := Originals(disk.files, WrittenSelections(scan, disk));
    PreparedRecovers(scan, disk);
    CutRollback(prepared, entries, cut);
    if entries != [] {
      RollbackForgets(Run(prepared, RollbackOps(entries)[..cut]).files, prepared.files, entries);
    } else {
      assert RollbackOps(entries)[..cut] == [];
    }
  }

  lemma UndoneBatch(scan: Scanner, disk: Disk)
    requires HasQueued(disk)
    ensures var entries := Originals(disk.files, WrittenSelections(scan, disk));
            Run(Prepared(scan, disk), RollbackOps(entries)) == Prepared(scan, disk).(files := disk.files)
    ensures LeftoverHarmless(disk) ==> RecoveredFiles(Prepared(scan, disk).(files := disk.files)) == disk.files
  {
    var written := WrittenSelections(scan, disk);
    var entries := Originals(disk.files, written);
    LeftoverHarmlessIs(disk);
    RollbackRuns(Prepared(scan, disk), entries);
    UndoWrites(disk.files, written);
    RollbackTwice(Overwritten(disk.files, written), entries);
  }

  lemma CutFailure(scan: Scanner, disk: Disk, cut: nat)
    requires HasQueued(disk) && LeftoverHarmless(disk) && !Commits(scan, disk) && cut <= |Ending(scan, disk)|
    ensures var crashed := Run(Prepared(scan, disk), Ending(scan, disk)[..cut]);
            RecoveredFiles(crashed) == disk.files && (crashed.pending.None? ==> crashed.files == disk.files)
  {
    var undo := RollbackOps(Originals(disk.files, WrittenSelections(scan, disk)));
    RunCut(Prepared(scan, disk), undo, Closing(disk.pending.value), cut);
    if cut <= |undo| {
      CutUndo(scan, disk, cut);
    } else {
      UndoneBatch(scan, disk);
      ClosingRuns(Prepared(scan, disk).(files := disk.files), disk.pending.value, cut - |undo|);
    }
  }

  // A crash before the program's ending.
  lemma EarlyCrash(scan: Scanner, disk: Disk, cut: nat)
    requires HasQueued(disk) && cut <= 2 + 2 * |WrittenSelections(scan, disk)|
    ensures var crashed := Crashed(scan, disk, cut);
            && crashed.pending.Some? && crashed.conflicts == disk.conflicts
            && (LeftoverHarmless(disk) ==> RecoveredFiles(crashed) == disk.files)
            && (cut == 2 ==> crashed == Opened(disk))
  {
    CutProgram(scan, disk, cut);
    if cut <= 2 {
      LeftoverHarmlessIs(disk);
      OpeningRuns(disk, cut);
    } else {
      CutWrites(Opened(disk), WrittenSelections(scan, disk), cut - 2);
    }
  }

  lemma LateCrash(scan: Scanner, disk: Disk, cut: nat)
    requires HasQueued(disk) && 2 + 2 * |WrittenSelections(scan, disk)| < cut <= |ApplyProgram(scan, disk)|
    ensures Crashed(scan, disk, cut) == Run(Prepared(scan, disk),
                                            Ending(scan, disk)[..cut - 2 - 2 * |WrittenSelections(scan, disk)|])
  {
    CutProgram(scan, disk, cut);
  }

  predicate RecoversFrom(scan: Scanner, disk: Disk, crashed: Disk)
    requires HasQueued(disk)
  {
    RecoveredFiles(crashed) == if crashed.pending.Some? then disk.files else Outcome(scan, disk)
  }

  lemma AtomicBeginning(scan: Scanner, disk: Disk, cut: nat)
    requires HasQueued(disk) && LeftoverHarmless(disk) && cut <= 2 + 2 * |WrittenSelections(scan, disk)|
    ensures RecoversFrom(scan, disk, Crashed(scan, disk, cut))
  {
    EarlyCrash(scan, disk, cut);
  }

  lemma AtomicEnding(scan: Scanner, disk: Disk, cut: nat)
    requires HasQueued(disk) && LeftoverHarmless(disk) && cut <= |Ending(scan, disk)|
    ensures RecoversFrom(scan, disk, Run(Prepared(scan, disk), Ending(scan, disk)[..cut]))
  {
    if Commits(scan, disk) {
      CutCommit(scan, disk, cut);
    } else {
      CutFailure(scan, disk, cut);
    }
  }

  lemma AtomicWherever(scan: Scanner, disk: Disk, cut: nat)
    requires HasQueued(disk) && LeftoverHarmless(disk) && cut <= |ApplyProgram(scan, disk)|
    ensures AtomicAt(scan, disk, cut)
  {
    var written := 2 + 2 * |WrittenSelections(scan, disk)|;
    if cut <= written {
      AtomicBeginning(scan, disk, cut);
    } else {
      LateCrash(scan, disk, cut);
      AtomicEnding(scan, disk, cut - written);
    }
    assert RecoversFrom(scan, disk, Crashed(scan, disk, cut));
    RecoveredIs(Crashed(scan, disk, cut));
  }

  // A batch is atomic under crashes at every point, if and only if a leftover
  // transaction journal of an earlier batch is harmless: recovery never compares
  // the journal's batch with the pending one.
  lemma CrashAtomicExactly(scan: Scanner, disk: Disk)
    requires HasQueued(disk)
    ensures (forall cut: nat :: cut <= |ApplyProgram(scan, disk)| ==> AtomicAt(scan, disk, cut))
            <==> LeftoverHarmless(disk)
  {
    if LeftoverHarmless(disk) {
      forall cut: nat | cut <= |ApplyProgram(scan, disk)|
        ensures AtomicAt(scan, disk, cut)
      {
        AtomicWherever(scan, disk, cut);
      }
    } else {
      EarlyCrash(scan, disk, 2);
      LeftoverHarmlessIs(disk);
      RecoveredIs(Opened(disk));
      assert !AtomicAt(scan, disk, 2);
    }
  }

  // The same with any number of crashes during recovery.
  lemma AtomicUnderRepeatedCrashes(scan: Scanner, disk: Disk, cut: nat, cuts: seq<nat>)
    requires HasQueued(disk) && LeftoverHarmless(disk) && cut <= |ApplyProgram(scan, disk)|
    ensures var crashed := Crashed(scan, disk, cut);
            Recovered(CrashedRecoveries(crashed, cuts)).files == if crashed.pending.Some? then disk.files
                else Outcome(scan, disk)
  {
    AtomicWherever(scan, disk, cut);
    CrashesDoNotMatter(Crashed(scan, disk, cut), cuts);
  }

  // How a leftover journal arises: a batch commits and crashes before it clears it.
  lemma CommitLeavesJournal(scan: Scanner, disk: Disk)
    requires HasQueued(disk) && Commits(scan, disk) && disk.pending.value.selections != []
    ensures var crashed := Crashed(scan, disk, |ApplyProgram(scan, disk)| - 3);
            && crashed.pending == None && crashed.files == Outcome(scan, disk)
            && crashed.journal.Some? && RolledBack(crashed.files, crashed.journal.value) == disk.files
  {
    var selections := disk.pending.value.selections;
    assert selections[..|selections|] == selections;
    LateCrash(scan, disk, |ApplyProgram(scan, disk)| - 3);
    CrashWhileCommitting(scan, disk, 2 * |selections| + 1);
    UndoWrites(disk.files, selections);
  }

  // What it costs: whenever a later batch then crashes right after it was marked
  // as applying, recovery takes back the batch that had committed. The leftover
  // journal is harmless only if that batch had changed nothing.
  lemma CommittedBatchCanBeTakenBack(scan: Scanner, first: Disk, second: Disk)
    requires HasQueued(first) && Commits(scan, first) && first.pending.value.selections != [] && HasQueued(second)
    requires second.files == Crashed(scan, first, |ApplyProgram(scan, first)| - 3).files
    requires second.journal == Crashed(scan, first, |ApplyProgram(scan, first)| - 3).journal
    ensures second.files == Outcome(scan, first)
    ensures Recovered(Crashed(scan, second, 2)).files == first.files
    ensures LeftoverHarmless(second) <==> second.files == first.files
  {
    CommitLeavesJournal(scan, first);
    EarlyCrash(scan, second, 2);
    RecoveredIs(Opened(second));
    LeftoverHarmlessIs(second);
  }

  // One conflict about a file that the repository does not have, resolved with this
  // computer's version; and, after a crash in its commit, a second conflict about
  // another file.
  const FIRST := Selection("1", Conflict("a", "base", "local", "remote"), ChoiceLocal, None)
  const SECOND := Selection("2", Conflict("b", "base", "local", "remote"), ChoiceLocal, None)

  function WithConflict(disk: Disk, selection: Selection): Disk {
    disk.(conflicts := map[selection.id := selection.revision], mirrored := {selection.id},
          pending := Some(Batch(Queued, [selection])))
  }

  function FirstDisk(): Disk {
    WithConflict(Disk(map[], map[], {}, None, None, false, None), FIRST)
  }

  // The disk on which the second batch is queued: nothing is to be recovered on it.
  function SecondDisk(scan: Scanner): Disk {
    var program := ApplyProgram(scan, FirstDisk());
    WithConflict(Recovered(Run(FirstDisk(), program[..if |program| > 3 then |program| - 3 else 0])), SECOND)
  }

  lemma SingleSelection(scan: Scanner, disk: Disk, selection: Selection)
    requires HasQueued(disk) && disk.pending.value.selections == [selection] && Usable(scan, disk.conflicts, selection)
    ensures Commits(scan, disk) && WrittenSelections(scan, disk) == [selection]
    ensures |ApplyProgram(scan, disk)| == 10
    ensures Outcome(scan, disk) == disk.files[selection.revision.path := Data(selection)]
  {
    var selections := [selection];
    assert selections[..0] == [] && selections[..1] == selections;
    var n := UsableCount(scan, disk.conflicts, selections);
    assert n == 1;
  }

  // The committed resolution of the first batch is taken back by a crash of the
  // second, which resolves another file.
  lemma ResolutionIsTakenBack(scan: Scanner)
    requires scan(FIRST.revision, ChoiceLocal, "local") && scan(SECOND.revision, ChoiceLocal, "local")
    ensures HasQueued(FirstDisk()) && Commits(scan, FirstDisk()) && HasQueued(SecondDisk(scan))
            && Commits(scan, SecondDisk(scan))
    ensures SecondDisk(scan).files == Outcome(scan, FirstDisk()) == map["a" := "local"]
    ensures !LeftoverHarmless(SecondDisk(scan)) && |ApplyProgram(scan, SecondDisk(scan))| >= 2
    ensures Recovered(Crashed(scan, SecondDisk(scan), 2)).files == FirstDisk().files == map[]
  {
    var first, second := FirstDisk(), SecondDisk(scan);
    SingleSelection(scan, first, FIRST);
    CommitLeavesJournal(scan, first);
    assert Recovered(Crashed(scan, first, 7)) == Crashed(scan, first, 7);
    SingleSelection(scan, second, SECOND);
    CommittedBatchCanBeTakenBack(scan, first, second);
    assert "a" in second.files;
  }

  lemma ConflictsKeptEarly(scan: Scanner, disk: Disk, cut: nat)
    requires HasQueued(disk) && cut <= 2 + 2 * |WrittenSelections(scan, disk)|
    ensures Recovered(Crashed(scan, disk, cut)).conflicts == disk.conflicts
  {
    EarlyCrash(scan, disk, cut);
    RecoveredIs(Crashed(scan, disk, cut));
  }

  lemma ConflictsLostLate(scan: Scanner, disk: Disk, cut: nat)
    requires HasQueued(disk) && Commits(scan, disk) && disk.pending.value.selections != []
    requires 2 + 2 * |WrittenSelections(scan, disk)| < cut <= |ApplyProgram(scan, disk)|
    ensures disk.pending.value.selections[0].id !in Recovered(Crashed(scan, disk, cut)).conflicts
  {
    LateCrash(scan, disk, cut);
    CrashWhileCommitting(scan, disk, cut - 2 - 2 * |WrittenSelections(scan, disk)|);
    RecoveredIs(Crashed(scan, disk, cut));
  }

  // Recovery does not bring conflict bundles back: an interrupted batch keeps its
  // conflicts exactly when it was interrupted before it removed the first one.
  lemma ConflictsKeptExactly(scan: Scanner, disk: Disk, cut: nat)
    requires HasQueued(disk) && Commits(scan, disk) && disk.pending.value.selections != []
             && cut <= |ApplyProgram(scan, disk)|
    ensures Recovered(Crashed(scan, disk, cut)).conflicts == disk.conflicts
            <==> cut <= 2 + 2 * |disk.pending.value.selections|
  {
    var selections := disk.pending.value.selections;
    assert selections[..|selections|] == selections;
    if cut <= 2 + 2 * |selections| {
      ConflictsKeptEarly(scan, disk, cut);
    } else {
      ConflictsLostLate(scan, disk, cut);
      assert Usable(scan, disk.conflicts, selections[0]);
    }
  }
}
