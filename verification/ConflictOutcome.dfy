// internal/conflict/resolution.go: what a batch that has run to its end leaves behind,
// in terms of what its selections chose.
module ConflictOutcome {
  import opened Strings
  import opened ConflictJournal
  import opened ConflictResolution

  // The content that a selection chooses: one of the bundle's two versions, or its own.
  predicate Chooses(selection: Selection, data: string) {
    match selection.choice
    case ChoiceLocal => data == selection.revision.local
    case ChoiceRemote => data == selection.revision.remote
    case ChoiceMerged => data == if selection.content.Some? then selection.content.value else ""
  }

  predicate IsLastFor(selections: seq<Selection>, i: nat, path: string) {
    && i < |selections| && selections[i].revision.path == path
    && forall j :: i < j < |selections| ==> selections[j].revision.path != path
  }

  // A file holds what the last selection about it chose; any other file is as before.
  ghost predicate ResolvesAt(before: map<string, string>, selections: seq<Selection>, after: map<string, string>,
                             path: string) {
    && (forall i: nat :: IsLastFor(selections, i, path) ==> path in after && Chooses(selections[i], after[path]))
    && ((forall i :: 0 <= i < |selections| ==> selections[i].revision.path != path)
        ==> Lookup(after, path) == Lookup(before, path))
  }

  ghost predicate Resolves(before: map<string, string>, selections: seq<Selection>, after: map<string, string>) {
    forall path :: ResolvesAt(before, selections, after, path)
  }

  lemma LastForNext(selections: seq<Selection>, i: nat, path: string)
    requires selections != []
    ensures IsLastFor(selections, i, path) <==>
              if selections[|selections| - 1].revision.path == path then i == |selections| - 1
              else IsLastFor(selections[..|selections| - 1], i, path)
  {
    var front := selections[..|selections| - 1];
    assert forall j :: 0 <= j < |front| ==> front[j] == selections[j];
    if IsLastFor(front, i, path) && selections[|selections| - 1].revision.path != path {
      forall j | i < j < |selections|
        ensures selections[j].revision.path != path
      {
        assert j < |front| ==> front[j].revision.path != path;
      }
    }
  }

  // Writing what one more selection chose.
  lemma LastResolves(before: map<string, string>, selections: seq<Selection>, after: map<string, string>, path: string)
    requires selections != [] && ResolvesAt(before, selections[..|selections| - 1], after, path)
    ensures var last := selections[|selections| - 1];
            ResolvesAt(before, selections, after[last.revision.path := Data(last)], path)
  {
    var front, last := selections[..|selections| - 1], selections[|selections| - 1];
    var next := after[last.revision.path := Data(last)];
    forall i: nat | IsLastFor(selections, i, path)
      ensures path in next && Chooses(selections[i], next[path])
    {
      LastForNext(selections, i, path);
      if last.revision.path != path {
        assert IsLastFor(front, i, path);
      }
    }
    if forall i :: 0 <= i < |selections| ==> selections[i].revision.path != path {
      assert last.revision.path != path;
      assert forall i :: 0 <= i < |front| ==> front[i].revision.path == selections[i].revision.path;
    }
  }

  lemma {:induction false} OverwrittenResolves(files: map<string, string>, selections: seq<Selection>, path: string)
    ensures ResolvesAt(files, selections, Overwritten(files, selections), path)
  {
    if selections != [] {
      OverwrittenResolves(files, selections[..|selections| - 1], path);
      LastResolves(files, selections, Overwritten(files, selections[..|selections| - 1]), path);
    }
  }

  predicate SelectsId(selections: seq<Selection>, id: string) {
    exists i :: 0 <= i < |selections| && selections[i].id == id
  }

  // The bundles without the selected ones, on this computer and in the repository.
  ghost predicate WithoutSelected(before: Disk, selections: seq<Selection>, after: Disk) {
    && (forall id :: Lookup(after.conflicts, id) ==
          if SelectsId(selections, id) then None else Lookup(before.conflicts, id))
    && (forall id :: id in after.mirrored <==> id in before.mirrored && !SelectsId(selections, id))
  }

  lemma {:induction false} RemovalsRemoveSelected(disk: Disk, selections: seq<Selection>)
    ensures WithoutSelected(disk, selections, Run(disk, RemovalOps(selections)))
  {
    if selections != [] {
      var front, last := selections[..|selections| - 1], selections[|selections| - 1];
      RemovalsRemoveSelected(disk, front);
      WritePairRuns(disk, RemovalOps(selections), RemovalOps(front), RemoveLocalBundle(last.id),
                    RemoveRepoBundle(last.id));
      forall id: string
        ensures SelectsId(selections, id) <==> SelectsId(front, id) || id == last.id
      {
        assert selections[|selections| - 1].id == last.id;
        assert forall j :: 0 <= j < |front| ==> front[j] == selections[j];
      }
    }
  }

  lemma CommitKeepsBundles(disk: Disk)
    ensures var after := Run(disk, COMMIT);
            && after.files == disk.files && after.conflicts == disk.conflicts && after.mirrored == disk.mirrored
            && after.pending == None && after.failed == None && after.journal == None && !after.view
  {
    var ops := COMMIT;
    assert ops == [RemovePending] + [RemoveFailed] + [RemoveView] + [RemoveJournal];
    RunNext(disk, [], ops[0]);
    RunNext(disk, [ops[0]], ops[1]);
    RunNext(disk, [ops[0]] + [ops[1]], ops[2]);
    RunNext(disk, [ops[0]] + [ops[1]] + [ops[2]], ops[3]);
    assert [] + [ops[0]] == [ops[0]];
  }

  // A batch that commits leaves in every file what its selections chose, removes their
  // bundles on both sides and no others, and clears the metadata.
  lemma CommittedBatchResolves(scan: Scanner, disk: Disk)
    requires HasQueued(disk) && Commits(scan, disk)
    ensures var selections, after := disk.pending.value.selections, Run(disk, ApplyProgram(scan, disk));
            && Resolves(disk.files, selections, after.files) && WithoutSelected(disk, selections, after)
            && after.pending == None && after.failed == None && after.journal == None && !after.view
  {
    var selections := disk.pending.value.selections;
    assert selections[..|selections|] == selections;
    var prepared := Prepared(scan, disk);
    OpenedIs(disk);
    PreparedIs(scan, disk);
    RunAppend(disk, Opening(disk) + WriteOps(disk.files, selections), RemovalOps(selections) + COMMIT);
    RunAppend(disk, Opening(disk), WriteOps(disk.files, selections));
    RunAppend(prepared, RemovalOps(selections), COMMIT);
    RemovalsRemoveSelected(prepared, selections);
    RemovalOpsOnlyRemove(selections);
    RemovalsRun(prepared, RemovalOps(selections));
    CommitKeepsBundles(Run(prepared, RemovalOps(selections)));
    forall path: string
      ensures ResolvesAt(disk.files, selections, Overwritten(disk.files, selections), path)
    {
      OverwrittenResolves(disk.files, selections, path);
    }
  }

  // The conflict is still there at its revision, and the scanner lets the chosen
  // content pass.
  ghost predicate Resolvable(scan: Scanner, conflicts: map<string, Conflict>, selection: Selection) {
    && Lookup(conflicts, selection.id) == Some(selection.revision)
    && exists data :: Chooses(selection, data) && scan(selection.revision, selection.choice, data)
  }

  lemma ResolvableIsUsable(scan: Scanner, conflicts: map<string, Conflict>, selection: Selection)
    ensures Resolvable(scan, conflicts, selection) <==> Usable(scan, conflicts, selection)
  {
    assert Chooses(selection, Data(selection));
    assert forall data :: Chooses(selection, data) ==> data == Data(selection);
  }

  // A batch commits if and only if all its selections can be resolved.
  lemma CommitsExactly(scan: Scanner, disk: Disk)
    requires HasQueued(disk)
    ensures Commits(scan, disk) <==>
              forall i :: 0 <= i < |disk.pending.value.selections| ==>
                Resolvable(scan, disk.conflicts, disk.pending.value.selections[i])
  {
    var selections := disk.pending.value.selections;
    var n := UsableCount(scan, disk.conflicts, selections);
    assert selections[..|selections|] == selections;
    forall i | 0 <= i < |selections|
      ensures Resolvable(scan, disk.conflicts, selections[i]) <==> Usable(scan, disk.conflicts, selections[i])
    {
      ResolvableIsUsable(scan, disk.conflicts, selections[i]);
    }
    if n == |selections| {
      assert AllUsable(scan, disk.conflicts, selections);
    } else {
      assert !Usable(scan, disk.conflicts, selections[n]);
    }
  }

  // A batch that is given up is kept as the failed one, and nothing is left of the rest.
  lemma ClosingReports(disk: Disk, batch: Batch)
    ensures Run(disk, Closing(batch))
         == disk.(failed := Some(Batch(Failed, batch.selections)), pending := None, view := false, journal := None)
  {
    var ops := Closing(batch);
    RunNext(disk, [], ops[0]);
    RunNext(disk, [ops[0]], ops[1]);
    RunNext(disk, [ops[0]] + [ops[1]], ops[2]);
    RunNext(disk, [ops[0]] + [ops[1]] + [ops[2]], ops[3]);
    assert ops == [ops[0]] + [ops[1]] + [ops[2]] + [ops[3]] && [] + [ops[0]] == [ops[0]];
  }

  // Recovery rolls back a batch that was being applied, and reports it as failed: each
  // journalled file is as its earliest entry says, every other as it was. It leaves
  // any other disk alone.
  lemma RecoveryReports(disk: Disk, path: string)
    ensures !IsApplying(disk) ==> Recovered(disk) == disk
    ensures IsApplying(disk) ==>
              Recovered(disk)
              == disk.(files := Recovered(disk).files, failed := Some(Batch(Failed, disk.pending.value.selections)),
                       pending := None, view := false, journal := None)
    ensures IsApplying(disk) && disk.journal.Some? ==>
              forall i: nat :: i < |disk.journal.value| && disk.journal.value[i].path == path
                               && IsEarliest(disk.journal.value, i) ==>
                Lookup(Recovered(disk).files, path) == disk.journal.value[i].original
    ensures disk.journal.None? || !Covers(disk.journal.value, path) ==>
              Lookup(Recovered(disk).files, path) == Lookup(disk.files, path)
  {
    if IsApplying(disk) {
      var undo := if disk.journal.Some? then RollbackOps(disk.journal.value) else [];
      RunAppend(disk, undo, Closing(disk.pending.value));
      ClosingReports(Run(disk, undo), disk.pending.value);
      if disk.journal.Some? {
        RollbackRuns(disk, disk.journal.value);
        RolledBackAt(disk.files, disk.journal.value, path);
      }
    }
  }

  // A batch that does not commit leaves the files and the bundles as they were.
  lemma FailedBatchChangesNothing(scan: Scanner, disk: Disk)
    requires HasQueued(disk) && !Commits(scan, disk)
    ensures var after := Run(disk, ApplyProgram(scan, disk));
            && after.files == disk.files && after.conflicts == disk.conflicts && after.mirrored == disk.mirrored
            && after.pending == None && after.journal == None && !after.view
            && after.failed == Some(Batch(Failed, disk.pending.value.selections))
  {
    var written := WrittenSelections(scan, disk);
    var undo, closing := RollbackOps(Originals(disk.files, written)), Closing(disk.pending.value);
    OpenedIs(disk);
    PreparedIs(scan, disk);
    RunAppend(disk, Opening(disk) + WriteOps(disk.files, written), undo + closing);
    RunAppend(disk, Opening(disk), WriteOps(disk.files, written));
    RunAppend(Prepared(scan, disk), undo, closing);
    UndoneBatch(scan, disk);
    ClosingReports(Run(Prepared(scan, disk), undo), disk.pending.value);
  }

  // What ApplyPendingBatch promises of a queued batch.
  ghost predicate Finishes(scan: Scanner, before: Disk, after: Disk)
    requires HasQueued(before)
  {
    && after.pending == None && after.journal == None && !after.view
    && (if Commits(scan, before) then
          && after.failed == None
          && Resolves(before.files, before.pending.value.selections, after.files)
          && WithoutSelected(before, before.pending.value.selections, after)
        else
          && after.failed == Some(Batch(Failed, before.pending.value.selections))
          && after.files == before.files && after.conflicts == before.conflicts && after.mirrored == before.mirrored)
  }

  lemma BatchFinishes(scan: Scanner, disk: Disk)
    requires HasQueued(disk)
    ensures Finishes(scan, disk, Run(disk, ApplyProgram(scan, disk)))
  {
    if Commits(scan, disk) {
      CommittedBatchResolves(scan, disk);
    } else {
      FailedBatchChangesNothing(scan, disk);
    }
  }
}
