// internal/conflict/resolution.go: the disk that conflict resolution works on,
// and its programs as lists of atomic writes and removals.
module ConflictJournal {
  import opened Strings

  // A conflict bundle. A revision is a digest of the whole bundle, so it is
  // represented by the bundle itself.
  datatype Conflict = Conflict(path: string, base: string, local: string, remote: string)

  datatype Choice = ChoiceLocal | ChoiceRemote | ChoiceMerged

  datatype Selection = Selection(id: string, revision: Conflict, choice: Choice, content: Option<string>)

  datatype Status = Queued | Applying | Failed

  datatype Batch = Batch(status: Status, selections: seq<Selection>)

  // What a canonical file held before it was overwritten.
  datatype Entry = Entry(path: string, original: Option<string>)

  // The repository's canonical files, the conflict bundles of this computer and
  // of the repository, and the files of the resolution: pending.json,
  // failed.json, applying-view.json and transaction.json.
  datatype Disk = Disk(
    files: map<string, string>,
    conflicts: map<string, Conflict>,
    mirrored: set<string>,
    pending: Option<Batch>,
    failed: Option<Batch>,
    view: bool,
    journal: Option<seq<Entry>>)

  datatype Op =
    | WriteView
    | RemoveView
    | WritePending(batch: Batch)
    | RemovePending
    | WriteFailed(batch: Batch)
    | RemoveFailed
    | WriteJournal(entries: seq<Entry>)
    | RemoveJournal
    | WriteFile(path: string, data: string)
    | RemoveFile(path: string)
    | RemoveLocalBundle(id: string)
    | RemoveRepoBundle(id: string)

  function Do(disk: Disk, op: Op): Disk {
    match op
    case WriteView => disk.(view := true)
    case RemoveView => disk.(view := false)
    case WritePending(batch) => disk.(pending := Some(batch))
    case RemovePending => disk.(pending := None)
    case WriteFailed(batch) => disk.(failed := Some(batch))
    case RemoveFailed => disk.(failed := None)
    case WriteJournal(entries) => disk.(journal := Some(entries))
    case RemoveJournal => disk.(journal := None)
    case WriteFile(path, data) => disk.(files := disk.files[path := data])
    case RemoveFile(path) => disk.(files := disk.files - {path})
    case RemoveLocalBundle(id) => disk.(conflicts := disk.conflicts - {id})
    case RemoveRepoBundle(id) => disk.(mirrored := disk.mirrored - {id})
  }

  function Run(disk: Disk, ops: seq<Op>): Disk {
    if ops == [] then disk else Do(Run(disk, ops[..|ops| - 1]), ops[|ops| - 1])
  }

  lemma {:induction false} RunAppend(disk: Disk, first: seq<Op>, second: seq<Op>)
    ensures Run(disk, first + second) == Run(Run(disk, first), second)
  {
    if second == [] {
      assert first + second == first;
    } else {
      assert (first + second)[..|first + second| - 1] == first + second[..|second| - 1];
      RunAppend(disk, first, second[..|second| - 1]);
    }
  }

  lemma RunNext(disk: Disk, ops: seq<Op>, op: Op)
    ensures Run(disk, ops + [op]) == Do(Run(disk, ops), op)
  {
    assert (ops + [op])[..|ops|] == ops;
  }

  // Cutting a program in two parts short.
  lemma RunCut(disk: Disk, first: seq<Op>, second: seq<Op>, cut: nat)
    requires cut <= |first| + |second|
    ensures Run(disk, (first + second)[..cut])
         == if cut <= |first| then Run(disk, first[..cut]) else Run(Run(disk, first), second[..cut - |first|])
  {
    if cut <= |first| {
      assert (first + second)[..cut] == first[..cut];
    } else {
      assert (first + second)[..cut] == first + second[..cut - |first|];
      RunAppend(disk, first, second[..cut - |first|]);
    }
  }

  // ---- Rolling back ----

  function Undo(entry: Entry): Op {
    if entry.original.Some? then WriteFile(entry.path, entry.original.value) else RemoveFile(entry.path)
  }

  // rollbackEntries goes from the last entry to the first.
  function RollbackOps(entries: seq<Entry>): (ops: seq<Op>)
    ensures |ops| == |entries|
  {
    if entries == [] then [] else [Undo(entries[|entries| - 1])] + RollbackOps(entries[..|entries| - 1])
  }

  function Undone(files: map<string, string>, entry: Entry): map<string, string> {
    if entry.original.Some? then files[entry.path := entry.original.value] else files - {entry.path}
  }

  function RolledBack(files: map<string, string>, entries: seq<Entry>): map<string, string>
    decreases |entries|
  {
    if entries == [] then files else RolledBack(Undone(files, entries[|entries| - 1]), entries[..|entries| - 1])
  }

  predicate Covers(entries: seq<Entry>, path: string) {
    exists i :: 0 <= i < |entries| && entries[i].path == path
  }

  lemma {:induction false} RollbackRuns(disk: Disk, entries: seq<Entry>)
    ensures Run(disk, RollbackOps(entries)) == disk.(files := RolledBack(disk.files, entries))
    decreases |entries|
  {
    if entries != [] {
      var front, last := entries[..|entries| - 1], entries[|entries| - 1];
      RunAppend(disk, [Undo(last)], RollbackOps(front));
      RunNext(disk, [], Undo(last));
      assert [] + [Undo(last)] == [Undo(last)];
      RollbackRuns(Do(disk, Undo(last)), front);
    }
  }

  // With several entries for one path, the earliest one wins; other paths stay.
  lemma {:induction false} RolledBackAt(files: map<string, string>, entries: seq<Entry>, path: string)
    ensures !Covers(entries, path) ==> Lookup(RolledBack(files, entries), path) == Lookup(files, path)
    ensures forall i ::
              0 <= i < |entries| && entries[i].path == path && (forall j :: 0 <= j < i ==> entries[j].path != path) ==>
                Lookup(RolledBack(files, entries), path) == entries[i].original
    decreases |entries|
  {
    if entries != [] {
      var front, last := entries[..|entries| - 1], entries[|entries| - 1];
      RolledBackAt(Undone(files, last), front, path);
      assert Covers(entries, path) <==> Covers(front, path) || last.path == path by {
        if i :| 0 <= i < |front| && front[i].path == path {
          assert entries[i].path == path;
        }
        assert last.path == path ==> entries[|entries| - 1].path == path;
      }
    }
  }

  lemma {:induction false} FirstEntry(entries: seq<Entry>, path: string) returns (i: nat)
    requires Covers(entries, path)
    ensures i < |entries| && entries[i].path == path && forall j :: 0 <= j < i ==> entries[j].path != path
  {
    i := 0;
    while entries[i].path != path
      invariant i < |entries| && forall j :: 0 <= j < i ==> entries[j].path != path
      decreases |entries| - i
    {
      i := i + 1;
      var k :| 0 <= k < |entries| && entries[k].path == path;
    }
  }

  // Every journalled path still holds, or again, what it held before the batch.
  predicate AllOriginal(files: map<string, string>, entries: seq<Entry>) {
    forall i :: 0 <= i < |entries| && IsEarliest(entries, i) ==> Lookup(files, entries[i].path) == entries[i].original
  }

  predicate IsEarliest(entries: seq<Entry>, i: nat)
    requires i < |entries|
  {
    forall j :: 0 <= j < i ==> entries[j].path != entries[i].path
  }

  // A rollback changes nothing if and only if all its paths are in their original state.
  lemma RollbackIsHarmlessExactly(files: map<string, string>, entries: seq<Entry>)
    ensures RolledBack(files, entries) == files <==> AllOriginal(files, entries)
  {
    if AllOriginal(files, entries) {
      forall path: string
        ensures Lookup(RolledBack(files, entries), path) == Lookup(files, path)
      {
        RolledBackAt(files, entries, path);
        if Covers(entries, path) {
          var i := FirstEntry(entries, path);
          assert IsEarliest(entries, i);
        }
      }
      LookupExtensional(RolledBack(files, entries), files);
    } else {
      var i :| 0 <= i < |entries| && IsEarliest(entries, i) && Lookup(files, entries[i].path) != entries[i].original;
      RolledBackAt(files, entries, entries[i].path);
    }
  }

  // A rollback overwrites whatever the entries' paths hold.
  lemma RollbackForgets(left: map<string, string>, right: map<string, string>, entries: seq<Entry>)
    requires forall path :: !Covers(entries, path) ==> Lookup(left, path) == Lookup(right, path)
    ensures RolledBack(left, entries) == RolledBack(right, entries)
  {
    forall path: string
      ensures Lookup(RolledBack(left, entries), path) == Lookup(RolledBack(right, entries), path)
    {
      RolledBackAt(left, entries, path);
      RolledBackAt(right, entries, path);
      if Covers(entries, path) {
        var i := FirstEntry(entries, path);
      }
    }
    LookupExtensional(RolledBack(left, entries), RolledBack(right, entries));
  }

  // A rollback that was cut short has only touched the entries' paths.
  lemma {:induction false} CutRollback(disk: Disk, entries: seq<Entry>, cut: nat)
    requires cut <= |entries|
    ensures var after := Run(disk, RollbackOps(entries)[..cut]);
            && after == disk.(files := after.files)
            && forall path :: !Covers(entries, path) ==> Lookup(after.files, path) == Lookup(disk.files, path)
  {
    if cut > 0 {
      CutRollback(disk, entries, cut - 1);
      var ops := RollbackOps(entries);
      assert ops[..cut] == ops[..cut - 1] + [ops[cut - 1]];
      RunNext(disk, ops[..cut - 1], ops[cut - 1]);
      RollbackOpIs(entries, cut - 1);
    }
  }

  lemma {:induction false} RollbackOpIs(entries: seq<Entry>, i: nat)
    requires i < |entries|
    ensures RollbackOps(entries)[i] == Undo(entries[|entries| - 1 - i])
  {
    if i > 0 {
      RollbackOpIs(entries[..|entries| - 1], i - 1);
    }
  }

  // ---- RecoverTransactions ----

  function Closing(batch: Batch): seq<Op> {
    [WriteFailed(batch.(status := Failed)), RemovePending, RemoveView, RemoveJournal]
  }

  function RecoverProgram(disk: Disk): seq<Op> {
    if disk.pending.None? || disk.pending.value.status != Applying then []
    else (if disk.journal.Some? then RollbackOps(disk.journal.value) else []) + Closing(disk.pending.value)
  }

  function Recovered(disk: Disk): Disk {
    Run(disk, RecoverProgram(disk))
  }

  function RecoveredFiles(disk: Disk): map<string, string> {
    if disk.pending.None? || disk.pending.value.status != Applying || disk.journal.None? then disk.files
    else RolledBack(disk.files, disk.journal.value)
  }

  lemma {:induction false} ClosingRuns(disk: Disk, batch: Batch, cut: nat)
    requires cut <= 4
    ensures var after := Run(disk, Closing(batch)[..cut]);
            && after.files == disk.files && after.conflicts == disk.conflicts && after.mirrored == disk.mirrored
            && after.pending == (if cut >= 2 then None else disk.pending)
            && after.journal == (if cut >= 4 then None else disk.journal)
  {
    if cut > 0 {
      var ops := Closing(batch);
      ClosingRuns(disk, batch, cut - 1);
      assert ops[..cut] == ops[..cut - 1] + [ops[cut - 1]];
      RunNext(disk, ops[..cut - 1], ops[cut - 1]);
    }
  }

  lemma RecoveredIs(disk: Disk)
    ensures Recovered(disk).files == RecoveredFiles(disk)
    ensures Recovered(disk).conflicts == disk.conflicts && Recovered(disk).mirrored == disk.mirrored
    ensures Recovered(disk).pending == if disk.pending.Some? && disk.pending.value.status == Applying then None
            else disk.pending
  {
    if disk.pending.Some? && disk.pending.value.status == Applying {
      var undo := if disk.journal.Some? then RollbackOps(disk.journal.value) else [];
      var closing := Closing(disk.pending.value);
      RunAppend(disk, undo, closing);
      if disk.journal.Some? {
        RollbackRuns(disk, disk.journal.value);
      }
      assert closing[..4] == closing;
      ClosingRuns(Run(disk, undo), disk.pending.value, 4);
    }
  }

  // A recovery that crashes anywhere and is run again ends with the same files.
  lemma CutRecovery(disk: Disk, cut: nat)
    requires cut <= |RecoverProgram(disk)|
    ensures RecoveredFiles(Run(disk, RecoverProgram(disk)[..cut])) == RecoveredFiles(disk)
    ensures Run(disk, RecoverProgram(disk)[..cut]).conflicts == disk.conflicts
  {
    var program := RecoverProgram(disk);
    if program != [] {
      var undo := if disk.journal.Some? then RollbackOps(disk.journal.value) else [];
      var closing := Closing(disk.pending.value);
      RunCut(disk, undo, closing, cut);
      if cut <= |undo| {
        if disk.journal.Some? {
          CutRollback(disk, disk.journal.value, cut);
          RollbackForgets(Run(disk, undo[..cut]).files, disk.files, disk.journal.value);
        } else {
          assert undo[..cut] == [];
        }
      } else {
        if disk.journal.Some? {
          RollbackRuns(disk, disk.journal.value);
          RollbackTwice(disk.files, disk.journal.value);
        }
        ClosingRuns(Run(disk, undo), disk.pending.value, cut - |undo|);
      }
    }
  }

  lemma RollbackTwice(files: map<string, string>, entries: seq<Entry>)
    ensures RolledBack(RolledBack(files, entries), entries) == RolledBack(files, entries)
  {
    forall path | !Covers(entries, path)
      ensures Lookup(RolledBack(files, entries), path) == Lookup(files, path)
    {
      RolledBackAt(files, entries, path);
    }
    RollbackForgets(RolledBack(files, entries), files, entries);
  }

  // Recoveries that crash one after the other, each at its own point.
  function CrashedRecoveries(disk: Disk, cuts: seq<nat>): Disk {
    if cuts == [] then disk
    else
      var before := CrashedRecoveries(disk, cuts[..|cuts| - 1]);
      var program, cut := RecoverProgram(before), cuts[|cuts| - 1];
      Run(before, program[..if cut <= |program| then cut else |program|])
  }

  // However often recovery crashes, the one that completes gives the same files.
  lemma {:induction false} CrashesDoNotMatter(disk: Disk, cuts: seq<nat>)
    ensures Recovered(CrashedRecoveries(disk, cuts)).files == Recovered(disk).files
    ensures Recovered(CrashedRecoveries(disk, cuts)).conflicts == Recovered(disk).conflicts
  {
    RecoveredIs(disk);
    if cuts != [] {
      var before := CrashedRecoveries(disk, cuts[..|cuts| - 1]);
      CrashesDoNotMatter(disk, cuts[..|cuts| - 1]);
      var program, cut := RecoverProgram(before), cuts[|cuts| - 1];
      RecoveredIs(before);
      CutRecovery(before, if cut <= |program| then cut else |program|);
      RecoveredIs(CrashedRecoveries(disk, cuts));
    }
  }
}
