// internal/conflict/resolution.go: the store's methods, each proved to perform
// exactly the program that the crash analysis cuts short.
module ConflictStore {
  import opened Strings
  import opened ConflictJournal
  import opened ConflictResolution
  import opened ConflictOutcome

  // ---- Queueing ----

  predicate ContentFits(scan: Scanner, selection: Selection) {
    if selection.choice == ChoiceMerged then
      selection.content.Some? && scan(selection.revision, ChoiceMerged, selection.content.value)
    else selection.content.None? || selection.content.value == ""
  }

  predicate Acceptable(scan: Scanner, conflicts: map<string, Conflict>, selection: Selection) {
    selection.id in conflicts && selection.revision == conflicts[selection.id] && ContentFits(scan, selection)
  }

  // Every visible conflict is selected once, at its current revision.
  predicate Complete(scan: Scanner, conflicts: map<string, Conflict>, selections: seq<Selection>) {
    && |selections| == |conflicts|
    && (forall i :: 0 <= i < |selections| ==> Acceptable(scan, conflicts, selections[i]))
    && (forall i, j :: 0 <= i < j < |selections| ==> selections[i].id != selections[j].id)
  }

  predicate OrderedById(selections: seq<Selection>) {
    forall i, j :: 0 <= i < j < |selections| ==> !Before(selections[j].id, selections[i].id)
  }

  lemma NotBeforeTransitive(a: string, b: string, c: string)
    requires !Before(b, a) && !Before(c, b)
    ensures !Before(c, a)
  {
    BeforeTotal(a, b);
    BeforeTotal(b, c);
    if Before(c, a) {
      if a != b {
        BeforeTransitive(c, a, b);
      }
    }
  }

  function InsertById(selections: seq<Selection>, selection: Selection): (out: seq<Selection>)
    ensures multiset(out) == multiset(selections) + multiset{selection}
  {
    if selections == [] then [selection]
    else
      assert selections == [selections[0]] + selections[1..];
      if Before(selection.id, selections[0].id) then [selection] + selections
      else [selections[0]] + InsertById(selections[1..], selection)
  }

  lemma {:induction false} InsertKeepsOrder(selections: seq<Selection>, selection: Selection)
    requires OrderedById(selections)
    ensures OrderedById(InsertById(selections, selection))
  {
    if selections != [] {
      var first := selections[0];
      if Before(selection.id, first.id) {
        forall i | 0 <= i < |selections|
          ensures !Before(selections[i].id, selection.id)
        {
          BeforeAsymmetric(selection.id, first.id);
          BeforeAsymmetric(first.id, first.id);
          NotBeforeTransitive(selection.id, first.id, selections[i].id);
        }
      } else {
        var rest := InsertById(selections[1..], selection);
        InsertKeepsOrder(selections[1..], selection);
        forall i | 0 <= i < |rest|
          ensures !Before(rest[i].id, first.id)
        {
          assert rest[i] in multiset(rest);
          assert rest[i] in selections[1..] || rest[i] == selection;
        }
      }
    }
  }

  lemma BeforeAsymmetric(a: string, b: string)
    ensures Before(a, b) ==> !Before(b, a)
  {
    BeforeTotal(a, a);
    if Before(a, b) && Before(b, a) {
      BeforeTransitive(a, b, a);
    }
  }

  // The batch that QueueBatch accepts resolves every conflict there is.
  lemma CompleteBatchResolvesEverything(scan: Scanner, disk: Disk, selections: seq<Selection>)
    requires Complete(scan, disk.conflicts, selections)
    requires HasQueued(disk) && multiset(disk.pending.value.selections) == multiset(selections)
    requires forall conflict: Conflict, choice: Choice, data: string :: choice != ChoiceMerged ==>
               scan(conflict, choice, data)
    ensures Commits(scan, disk)
    ensures forall id :: id in disk.conflicts <==> Selects(disk.pending.value.selections, id)
  {
    var queued := disk.pending.value.selections;
    forall i | 0 <= i < |queued|
      ensures Usable(scan, disk.conflicts, queued[i])
    {
      assert queued[i] in multiset(queued);
      assert queued[i] in selections;
    }
    assert UsableCount(scan, disk.conflicts, queued) == |queued|;
    forall id: string
      ensures id in disk.conflicts <==> Selects(queued, id)
    {
      DistinctIdsCover(scan, disk.conflicts, selections, id);
      if i :| 0 <= i < |selections| && selections[i].id == id {
        assert selections[i] in multiset(queued);
      }
      if i :| 0 <= i < |queued| && queued[i].id == id {
        assert queued[i] in multiset(selections);
      }
    }
  }

  predicate Selects(selections: seq<Selection>, id: string) {
    exists i :: 0 <= i < |selections| && selections[i].id == id
  }

  function Ids(selections: seq<Selection>): set<string> {
    set i | 0 <= i < |selections| :: selections[i].id
  }

  lemma {:induction false} DistinctIdsCount(selections: seq<Selection>)
    requires forall i, j :: 0 <= i < j < |selections| ==> selections[i].id != selections[j].id
    ensures |Ids(selections)| == |selections|
  {
    if selections != [] {
      var front, last := selections[..|selections| - 1], selections[|selections| - 1];
      DistinctIdsCount(front);
      assert Ids(selections) == Ids(front) + {last.id} by {
        assert selections[|selections| - 1] == last;
        assert forall i :: 0 <= i < |front| ==> front[i] == selections[i];
      }
    }
  }

  lemma DistinctIdsCover(scan: Scanner, conflicts: map<string, Conflict>, selections: seq<Selection>, id: string)
    requires Complete(scan, conflicts, selections)
    ensures id in conflicts <==> Selects(selections, id)
  {
    DistinctIdsCount(selections);
    SameSize(Ids(selections), conflicts.Keys);
    assert id in Ids(selections) <==> Selects(selections, id);
  }

  // A batch is accepted if and only if its selections are about every conflict, each
  // once and at its current revision, with a content that the scanner lets pass where
  // it is merged, and without one elsewhere.
  lemma CompleteExactly(scan: Scanner, conflicts: map<string, Conflict>, selections: seq<Selection>)
    ensures Complete(scan, conflicts, selections) <==>
              && (forall i, j :: 0 <= i < j < |selections| ==> selections[i].id != selections[j].id)
              && (forall id :: id in conflicts <==> Selects(selections, id))
              && (forall i :: 0 <= i < |selections| ==>
                    var selection := selections[i];
                    && Lookup(conflicts, selection.id) == Some(selection.revision)
                    && (if selection.choice == ChoiceMerged
                        then selection.content.Some? && scan(selection.revision, ChoiceMerged, selection.content.value)
                        else selection.content in {None, Some("")}))
  {
    if Complete(scan, conflicts, selections) {
      forall id: string
        ensures id in conflicts <==> Selects(selections, id)
      {
        DistinctIdsCover(scan, conflicts, selections, id);
      }
    } else if forall i, j :: 0 <= i < j < |selections| ==> selections[i].id != selections[j].id {
      DistinctIdsCount(selections);
      if forall id :: id in conflicts <==> Selects(selections, id) {
        assert forall id :: id in Ids(selections) <==> Selects(selections, id);
        assert Ids(selections) == conflicts.Keys;
      }
    }
  }

  lemma SameSize(small: set<string>, large: set<string>)
    requires small <= large && |small| == |large|
    ensures small == large
  {
    assert large == small + (large - small);
  }

  lemma {:induction false} CountIs(scan: Scanner, conflicts: map<string, Conflict>, selections: seq<Selection>,
                                   count: nat)
    requires count <= |selections| && AllUsable(scan, conflicts, selections[..count])
    requires count < |selections| ==> !Usable(scan, conflicts, selections[count])
    ensures UsableCount(scan, conflicts, selections) == count
  {
    var n := UsableCount(scan, conflicts, selections);
    assert forall i :: 0 <= i < count ==> selections[..count][i] == selections[i];
    assert forall i :: 0 <= i < n ==> selections[..n][i] == selections[i];
  }

  // ---- The store ----

  predicate DistinctIds(selections: seq<Selection>) {
    forall i, j :: 0 <= i < j < |selections| ==> selections[i].id != selections[j].id
  }

  predicate AllAcceptable(scan: Scanner, conflicts: map<string, Conflict>, selections: seq<Selection>) {
    forall i :: 0 <= i < |selections| ==> Acceptable(scan, conflicts, selections[i])
  }

  lemma ValidatedNext(scan: Scanner, conflicts: map<string, Conflict>, selections: seq<Selection>, i: nat)
    requires i < |selections|
    requires DistinctIds(selections[..i]) && AllAcceptable(scan, conflicts, selections[..i])
    ensures selections[..i + 1] == selections[..i] + [selections[i]]
    ensures DistinctIds(selections[..i + 1]) <==> !Selects(selections[..i], selections[i].id)
    ensures AllAcceptable(scan, conflicts, selections[..i + 1]) <==> Acceptable(scan, conflicts, selections[i])
    ensures forall id :: Selects(selections[..i + 1], id) <==> Selects(selections[..i], id) || id == selections[i].id
  {
    var front, more := selections[..i], selections[..i + 1];
    assert more == front + [selections[i]];
    if Selects(front, selections[i].id) {
      var j :| 0 <= j < i && front[j].id == selections[i].id;
      assert more[j].id == more[i].id;
    }
    assert more[i] == selections[i];
    forall id: string
      ensures Selects(more, id) <==> Selects(front, id) || id == selections[i].id
    {
      if j :| 0 <= j < i && front[j].id == id {
        assert more[j].id == id;
      }
      if j :| 0 <= j <= i && more[j].id == id {
        assert j < i ==> front[j].id == id;
      }
    }
  }

  lemma PrefixFails(scan: Scanner, conflicts: map<string, Conflict>, selections: seq<Selection>, i: nat)
    requires i <= |selections| && !(DistinctIds(selections[..i]) && AllAcceptable(scan, conflicts, selections[..i]))
    ensures !Complete(scan, conflicts, selections)
  {
    assert forall j :: 0 <= j < i ==> selections[..i][j] == selections[j];
  }

  // The validation loop of QueueBatch, which also puts the selections in id order.
  method Validate(scan: Scanner, conflicts: map<string, Conflict>, selections: seq<Selection>)
    returns (valid: bool, ordered: seq<Selection>)
    requires |selections| == |conflicts|
    ensures valid <==> Complete(scan, conflicts, selections)
    ensures valid ==> OrderedById(ordered) && multiset(ordered) == multiset(selections)
  {
    var seen: set<string> := {};
    ordered := [];
    for i := 0 to |selections|
      invariant forall id :: id in seen <==> Selects(selections[..i], id)
      invariant DistinctIds(selections[..i]) && AllAcceptable(scan, conflicts, selections[..i])
      invariant OrderedById(ordered) && multiset(ordered) == multiset(selections[..i])
    {
      var selection := selections[i];
      ValidatedNext(scan, conflicts, selections, i);
      if selection.id in seen {
        PrefixFails(scan, conflicts, selections, i + 1);
        return false, [];
      }
      if selection.id !in conflicts || selection.revision != conflicts[selection.id] || !ContentFits(scan, selection) {
        PrefixFails(scan, conflicts, selections, i + 1);
        return false, [];
      }
      seen := seen + {selection.id};
      InsertKeepsOrder(ordered, selection);
      ordered := InsertById(ordered, selection);
    }
    assert selections[..|selections|] == selections;
    valid := true;
  }

  lemma RollbackUnfolds(entries: seq<Entry>, i: nat)
    requires i < |entries|
    ensures RollbackOps(entries[..i + 1]) == [Undo(entries[i])] + RollbackOps(entries[..i])
  {
    assert entries[..i + 1][..i] == entries[..i];
  }

  lemma Shift(done: seq<Op>, op: Op, rest: seq<Op>)
    ensures (done + [op]) + rest == done + ([op] + rest)
  {
  }

  class Store {
    var files: map<string, string>
    var conflicts: map<string, Conflict>
    var mirrored: set<string>
    var pending: Option<Batch>
    var failed: Option<Batch>
    var view: bool
    var journal: Option<seq<Entry>>
    // Every write and removal since the store was opened on its disk.
    ghost const origin: Disk
    ghost var trace: seq<Op>

    constructor (disk: Disk)
      ensures Valid() && Image() == disk
    {
      files, conflicts, mirrored := disk.files, disk.conflicts, disk.mirrored;
      pending, failed, view, journal := disk.pending, disk.failed, disk.view, disk.journal;
      origin, trace := disk, [];
    }

    function Image(): Disk
      reads this
    {
      Disk(files, conflicts, mirrored, pending, failed, view, journal)
    }

    ghost predicate Valid()
      reads this
    {
      Image() == Run(origin, trace)
    }

    // So the disk is always what the trace made of it since any earlier moment.
    lemma RanSince(start: Disk, before: seq<Op>, ops: seq<Op>)
      requires Valid() && start == Run(origin, before) && trace == before + ops
      ensures Image() == Run(start, ops)
    {
      RunAppend(origin, before, ops);
    }

    method Write(op: Op)
      modifies `files, `conflicts, `mirrored, `pending, `failed, `view, `journal
      ensures Image() == Do(old(Image()), op)
    {
      match op {
        case WriteView => view := true;
        case RemoveView => view := false;
        case WritePending(batch) => pending := Some(batch);
        case RemovePending => pending := None;
        case WriteFailed(batch) => failed := Some(batch);
        case RemoveFailed => failed := None;
        case WriteJournal(entries) => journal := Some(entries);
        case RemoveJournal => journal := None;
        case WriteFile(path, data) => files := files[path := data];
        case RemoveFile(path) => files := files - {path};
        case RemoveLocalBundle(id) => conflicts := conflicts - {id};
        case RemoveRepoBundle(id) => mirrored := mirrored - {id};
      }
    }

    method Perform(op: Op)
      requires Valid()
      modifies this
      ensures Valid() && trace == old(trace) + [op] && Image() == Do(old(Image()), op)
    {
      RunNext(origin, trace, op);
      Write(op);
      trace := trace + [op];
    }

    method PerformAll(ops: seq<Op>)
      requires Valid()
      modifies this
      ensures Valid() && trace == old(trace) + ops
    {
      for i := 0 to |ops|
        invariant Valid() && trace == old(trace) + ops[..i]
      {
        Perform(ops[i]);
      }
    }

    method RollbackEntries(entries: seq<Entry>)
      requires Valid()
      modifies this
      ensures Valid() && trace == old(trace) + RollbackOps(entries)
    {
      var i := |entries|;
      ghost var done: seq<Op> := [];
      assert entries[..i] == entries;
      while i > 0
        invariant 0 <= i <= |entries|
        invariant Valid() && trace == old(trace) + done
        invariant done + RollbackOps(entries[..i]) == RollbackOps(entries)
        decreases i
      {
        i := i - 1;
        var entry := entries[i];
        RollbackUnfolds(entries, i);
        Shift(done, Undo(entry), RollbackOps(entries[..i]));
        if entry.original.Some? {
          Perform(WriteFile(entry.path, entry.original.value));
        } else {
          Perform(RemoveFile(entry.path));
        }
        done := done + [Undo(entry)];
      }
    }

    // Accepts a batch only when no other is pending and every conflict is
    // selected once, at its current revision; a refused batch changes nothing.
    method QueueBatch(scan: Scanner, selections: seq<Selection>) returns (accepted: bool)
      requires Valid()
      modifies this
      ensures Valid()
      ensures accepted <==> old(pending).None? && Complete(scan, old(conflicts), selections)
      ensures accepted ==> HasQueued(Image()) && OrderedById(pending.value.selections)
                           && multiset(pending.value.selections) == multiset(selections)
                           && Image() == old(Image()).(pending := pending, failed := None)
      ensures !accepted ==> Image() == old(Image())
    {
      if |selections| != |conflicts| {
        return false;
      }
      var valid, ordered := Validate(scan, conflicts, selections);
      if !valid || pending.Some? {
        return false;
      }
      Perform(WritePending(Batch(Queued, ordered)));
      Perform(RemoveFailed);
      accepted := true;
    }

    // One selection: the journal first, then the canonical file.
    method WriteSelection(selection: Selection, entries: seq<Entry>)
      requires Valid()
      modifies this
      ensures Valid() && trace == old(trace) + [WriteJournal(entries),
                                                WriteFile(selection.revision.path, Data(selection))]
      ensures conflicts == old(conflicts) && files == old(files)[selection.revision.path := Data(selection)]
    {
      Perform(WriteJournal(entries));
      Perform(WriteFile(selection.revision.path, Data(selection)));
    }

    // The loop over the selections: stops before the first unusable one.
    method WriteSelections(scan: Scanner, selections: seq<Selection>) returns (entries: seq<Entry>, count: nat)
      requires Valid()
      modifies this
      ensures count == UsableCount(scan, old(conflicts), selections)
              && entries == Originals(old(files), selections[..count])
      ensures Valid() && trace == old(trace) + WriteOps(old(files), selections[..count])
    {
      entries := [];
      count := 0;
      while count < |selections|
        invariant count <= |selections| && AllUsable(scan, old(conflicts), selections[..count])
        invariant conflicts == old(conflicts) && files == Overwritten(old(files), selections[..count])
        invariant entries == Originals(old(files), selections[..count])
        invariant Valid() && trace == old(trace) + WriteOps(old(files), selections[..count])
      {
        var selection := selections[count];
        if selection.id !in conflicts || conflicts[selection.id] != selection.revision {
          break;
        }
        if !scan(selection.revision, selection.choice, Data(selection)) {
          break;
        }
        assert selections[..count + 1] == selections[..count] + [selection];
        assert selections[..count + 1][..count] == selections[..count];
        entries := entries + [Entry(selection.revision.path, Lookup(files, selection.revision.path))];
        WriteSelection(selection, entries);
        count := count + 1;
      }
      CountIs(scan, old(conflicts), selections, count);
    }

    method RemoveBundles(selections: seq<Selection>)
      requires Valid()
      modifies this
      ensures Valid() && trace == old(trace) + RemovalOps(selections)
    {
      for i := 0 to |selections|
        invariant Valid() && trace == old(trace) + RemovalOps(selections[..i])
      {
        assert selections[..i + 1][..i] == selections[..i];
        Perform(RemoveLocalBundle(selections[i].id));
        Perform(RemoveRepoBundle(selections[i].id));
      }
      assert selections[..|selections|] == selections;
    }

    method FinishBatch(batch: Batch, entries: seq<Entry>, commit: bool)
      requires Valid()
      modifies this
      ensures Valid()
      ensures trace == old(trace) + (if commit then RemovalOps(batch.selections) + COMMIT
                                     else RollbackOps(entries) + Closing(batch))
    {
      if commit {
        RemoveBundles(batch.selections);
        PerformAll(COMMIT);
      } else {
        RollbackEntries(entries);
        PerformAll(Closing(batch));
      }
    }

    method OpenBatch(batch: Batch)
      requires Valid()
      modifies this
      ensures Valid() && trace == old(trace) + [WriteView, WritePending(batch.(status := Applying))]
      ensures files == old(files) && conflicts == old(conflicts)
    {
      Perform(WriteView);
      Perform(WritePending(batch.(status := Applying)));
    }

    // Performs the batch's program and reports which resolutions were committed.
    method ApplyPendingBatch(scan: Scanner) returns (applied: seq<Selection>)
      requires Valid()
      modifies this
      ensures Valid()
      ensures !HasQueued(old(Image())) ==> Image() == old(Image()) && trace == old(trace) && applied == []
      ensures HasQueued(old(Image())) <==> old(pending).Some? && old(pending).value.status == Queued
      ensures HasQueued(old(Image())) ==>
                && trace == old(trace) + ApplyProgram(scan, old(Image()))
                && applied == (if Commits(scan, old(Image())) then old(pending).value.selections else [])
                && Finishes(scan, old(Image()), Image())
    {
      applied := [];
      if pending.None? || pending.value.status != Queued {
        return;
      }
      var batch := pending.value;
      ghost var start, before := Image(), trace;
      OpenBatch(batch);
      ghost var begun := trace;
      var entries, count := WriteSelections(scan, batch.selections);
      ghost var written := trace;
      FinishBatch(batch, entries, count == |batch.selections|);
      ProgramParts(scan, start, before, begun, written, trace);
      RanSince(start, before, ApplyProgram(scan, start));
      BatchFinishes(scan, start);
      if count == |batch.selections| {
        applied := batch.selections;
      }
    }

    // Rolls back an interrupted batch, if there is one.
    method RecoverTransactions()
      requires Valid()
      modifies this
      ensures Valid()
      ensures trace == old(trace) + RecoverProgram(old(Image()))
      ensures Image() == Recovered(old(Image()))
    {
      ghost var start, before := Image(), trace;
      if pending.None? || pending.value.status != Applying {
        return;
      }
      var batch := pending.value;
      RollbackEntries(if journal.Some? then journal.value else []);
      PerformAll(Closing(batch));
      assert trace == before + RecoverProgram(start);
      RanSince(start, before, RecoverProgram(start));
    }
  }
}
