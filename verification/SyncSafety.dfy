// What one pass of the engine may do to one path, whatever the other paths do.
module SyncSafety {
  import opened Documents
  import opened Strings
  import opened Snapshots
  import opened Reconcile
  import opened ResourcePlanning
  import opened SyncPass
  import PortableMerge

  // Collection yields only files of configured resources.
  predicate LocalOwned(role: Role, before: PathState) {
    before.local.Some? ==> role.owned && !role.internal
  }

  // The pass reached the merge of this path and the merge succeeded.
  predicate MergesTo(role: Role, mode: FirstSyncMode, before: PathState, content: Content) {
    && !role.held
    && KindOf(role, mode, before.entry, before.local, before.file) == Some(MergeBoth)
    && MergeContents(role, before.stored, before.local, before.file) == MergedContent(content)
  }

  predicate Merges(role: Role, mode: FirstSyncMode, before: PathState) {
    && !role.held
    && KindOf(role, mode, before.entry, before.local, before.file) == Some(MergeBoth)
    && MergeContents(role, before.stored, before.local, before.file).MergedContent?
  }

  // The content that the pass writes into the local file, if any.
  function Incoming(role: Role, mode: FirstSyncMode, before: PathState): Option<Content> {
    match KindOf(role, mode, before.entry, before.local, before.file)
    case Some(PullToLocal) => before.file
    case Some(MergeBoth) =>
      if Merges(role, mode, before)
      then Some(MergeContents(role, before.stored, before.local, before.file).content) else None
    case _ => None
  }

  // What the local file shares after that.
  function Shares(role: Role, mode: FirstSyncMode, before: PathState): Option<Content> {
    var content := Incoming(role, mode, before);
    if content.Some? then Receive(role, before.stored, before.local, content.value) else None
  }

  // The local file shares exactly what it receives.
  predicate Faithful(role: Role, mode: FirstSyncMode, before: PathState) {
    Shares(role, mode, before) == Incoming(role, mode, before)
  }

  // The pass reached the merge of this path and the merge did not succeed.
  predicate Clashes(role: Role, mode: FirstSyncMode, before: PathState) {
    && !role.held
    && KindOf(role, mode, before.entry, before.local, before.file) == Some(MergeBoth)
    && !MergeContents(role, before.stored, before.local, before.file).MergedContent?
  }

  // A side is overwritten or deleted only while it still holds the base entry,
  // or when a successful merge replaces it; and a merge gives the repository its
  // result, and the local file what it shares after receiving it.
  lemma OverwritesOnlyBase(role: Role, before: PathState)
    requires LocalOwned(role, before) && !role.blocked && role.strategy != InstallManifest
    ensures var after := CellAfter(role, MergeMode, before);
            && (after.local != before.local ==>
                  before.local == before.entry
                  || (Merges(role, MergeMode, before) && after.local == Shares(role, MergeMode, before)))
            && (after.file != before.file ==>
                  before.file == before.entry || MergesTo(role, MergeMode, before, Variant(after.file)))
            && (Merges(role, MergeMode, before) ==>
                  && after.file == Incoming(role, MergeMode, before)
                  && (Shares(role, MergeMode, before).Some? ==> after.local == Shares(role, MergeMode, before)))
  {
  }

  // A merge that does not succeed leaves both sides and the base entry as they
  // were, and a conflict keeps the three versions.
  lemma ClashKeepsEverything(role: Role, mode: FirstSyncMode, before: PathState)
    requires Clashes(role, mode, before)
    ensures var after := CellAfter(role, mode, before);
            && after.local == before.local && after.file == before.file && after.kept
            && EntryAfter(role, mode, before) == BaseView(role, before.entry)
            && StoredAfter(role, mode, before) == before.stored
            && (before.conflict.Some? ==> after.conflict == before.conflict)
            && (before.conflict.None? && MergeContents(role, before.stored, before.local, before.file).MergeConflict?
                ==> after.conflict == Some(Bundle(Variant(before.stored), Variant(before.local), Variant(before.file))))
  {
  }

  // A path with an unresolved conflict keeps it and its base; its sides only
  // change through a merge that has become possible, or a blocked file's removal.
  lemma ConflictFreezes(role: Role, mode: FirstSyncMode, before: PathState)
    requires before.conflict.Some?
    ensures var after := CellAfter(role, mode, before);
            && after.conflict == before.conflict
            && EntryAfter(role, mode, before) == BaseView(role, before.entry)
            && StoredAfter(role, mode, before) == before.stored
            && (after.local != before.local ==> Merges(role, mode, before))
            && (after.file != before.file ==> Merges(role, mode, before) || role.blocked)
  {
  }

  // What is withheld from synchronization is left alone. A blocked file leaves the
  // repository, the files of an install manifest are never written here, and a skipped
  // path stays as it is on both sides: it loses its base entry, but its merge base
  // stays while the repository holds it.
  lemma WithheldIsLeftAlone(role: Role, mode: FirstSyncMode, before: PathState)
    ensures var after := CellAfter(role, mode, before);
            && (role.blocked || role.skipped || role.strategy == InstallManifest ==> after.local == before.local)
            && (role.blocked || role.skipped ==> after.conflict == before.conflict)
            && (role.blocked && !role.held ==> after.file.None?)
            && (role.skipped && !role.blocked ==>
                  && after.file == before.file && EntryAfter(role, mode, before) == None
                  && (before.file.Some? && (role.owned || role.internal)
                      ==> StoredAfter(role, mode, before) == before.stored))
  {
  }

  // So a path that lost its base entry is never pulled over later, only merged.
  lemma UnrecordedIsNotOverwritten(role: Role, before: PathState)
    requires LocalOwned(role, before) && !role.blocked && before.entry.None? && before.local.Some?
    ensures var after := CellAfter(role, MergeMode, before);
            after.local != before.local ==> Merges(role, MergeMode, before)
  {
  }

  // A structured file that a pass has merged obeys the three-way law at every
  // path of every key, against the stored merge base.
  lemma MergedFileObeysLaw(role: Role, before: PathState, key: string, path: seq<string>)
    requires Merges(role, MergeMode, before) && role.strategy == StructuredMerge
    ensures var file := CellAfter(role, MergeMode, before).file;
            && file.Some? && file.value.Structured? && before.local.Some? && before.local.value.Structured?
            && before.file.Some? && before.file.value.Structured?
            && PortableMerge.ThreeWay(At(Get(MergeBase(before), key), path),
                                      At(Get(before.local.value.document, key), path),
                                      At(Get(before.file.value.document, key), path),
                                          At(Get(file.value.document, key), path))
  {
    var base, local, remote := MergeBase(before), before.local.value.document, before.file.value.document;
    var merged := CellAfter(role, MergeMode, before).file.value.document;
    assert PortableMerge.MergeDocuments(base, local, remote) == PortableMerge.MergedMap(merged);
    KeyObeysLaw(base, local, remote, key, path);
  }

  function MergeBase(before: PathState): Document {
    if before.stored.Some? && before.stored.value.Structured? then before.stored.value.document else map[]
  }

  lemma KeyObeysLaw(base: Document, local: Document, remote: Document, key: string, path: seq<string>)
    requires PortableMerge.MergeDocuments(base, local, remote).MergedMap?
    ensures var merged := PortableMerge.MergeDocuments(base, local, remote).document;
            PortableMerge.ThreeWay(At(Get(base, key), path), At(Get(local, key), path), At(Get(remote, key), path),
                                   At(Get(merged, key), path))
  {
    var merged := PortableMerge.MergeDocuments(base, local, remote).document;
    AtAbsent(path);
    if key in PortableMerge.Keys(base, local, remote) {
      assert PortableMerge.MergeKey(base, local, remote, key).Merged?;
      assert Get(merged, key) == PortableMerge.MergeKey(base, local, remote, key).slot;
      PortableMerge.MergeThreeWay(Get(base, key), Get(local, key), Get(remote, key), path);
    }
  }

  // A path of a plain resource: everything may be synchronized and nothing fails.
  const PLAIN := Role(true, false, false, false, false, false, false, FileTree, (base, local, remote) => MergeConflict,
                     (stored, local, content) => Some(content))

  // ---- What becomes of two edits of one file ----

  // Files that are not merged: two different versions of them cannot be combined.
  predicate IsWhole(strategy: Strategy) {
    strategy == FileTree || strategy == SourceTree || strategy == InstallManifest
  }

  // Both sides have left the recorded base, to two different versions, and nothing
  // stands in the way of merging them.
  predicate BothEdited(role: Role, before: PathState) {
    && Clear(role.(strategy := FileTree)) && before.conflict.None?
    && before.local != before.entry && before.file != before.entry && before.local != before.file
  }

  // Two different edits of a whole file leave both sides as they are and a bundle of
  // exactly the three versions.
  lemma WholeFilesConflict(role: Role, before: PathState)
    requires BothEdited(role, before) && IsWhole(role.strategy)
    requires before.stored.Some? && before.local.Some? && before.file.Some?
    requires before.local != before.stored && before.file != before.stored
    ensures CellAfter(role, MergeMode, before)
         == Cell(before.local, before.file,
                 Some(Bundle(before.stored.value, before.local.value, before.file.value)), true)
  {
  }

  // So does a deletion against an edit, or two creations, except that structured
  // files that were both created are merged; what is missing is stored empty.
  lemma MissingVersionConflicts(role: Role, before: PathState)
    requires BothEdited(role, before)
    requires before.stored.None? || before.local.None? || before.file.None?
    requires role.strategy == StructuredMerge ==> before.local.None? || before.file.None?
    ensures var content := (side: Option<Content>) => match side case Some(c) => c case None => Bytes("");
            CellAfter(role, MergeMode, before)
            == Cell(before.local, before.file,
                    Some(Bundle(content(before.stored), content(before.local), content(before.file))), true)
  {
  }

  // A side of a whole file changes only if one side holds the recorded base or the
  // stored merge base, and only to what the other side holds.
  lemma WholeFilesAreNotMixed(role: Role, before: PathState)
    requires Clear(role) && IsWhole(role.strategy) && LocalOwned(role, before)
    ensures var after := CellAfter(role, MergeMode, before);
            && (after.local == before.local || after.local == before.file)
            && (after.file == before.file || after.file == before.local)
            && (after.local != before.local || after.file != before.file ==>
                  || before.local == before.entry || before.file == before.entry
                  || before.local == before.stored || before.file == before.stored)
  {
  }

  // Two edits of a text file become what the text merge says of the three versions.
  lemma TextFilesMerge(role: Role, before: PathState)
    requires BothEdited(role, before) && role.strategy == TextTree
    requires before.stored.Some? && before.local.Some? && before.file.Some?
    ensures var after := CellAfter(role, MergeMode, before);
            match (role.textMerge)(before.stored.value, before.local.value, before.file.value)
            case MergedContent(content) =>
              after == if role.failing then Cell(before.local, Some(content), None, true)
                       else Cell(Some(content), Some(content), None, false)
            case MergeConflict =>
              after == Cell(before.local, before.file,
                            Some(Bundle(before.stored.value, before.local.value, before.file.value)), true)
            case MergeFailed => after == Cell(before.local, before.file, None, true)
  {
  }

  // Two edits of a structured document conflict if and only if they clash somewhere,
  // over the stored base or, if it is missing, over an empty document.
  lemma StructuredFilesConflictExactly(role: Role, before: PathState)
    requires BothEdited(role, before) && role.strategy == StructuredMerge
    requires before.local.Some? && before.local.value.Structured?
    requires before.file.Some? && before.file.value.Structured?
    requires before.stored.Some? ==> before.stored.value.Structured?
    ensures var base, local, remote := MergeBase(before), before.local.value.document, before.file.value.document;
            CellAfter(role, MergeMode, before).conflict.Some? <==>
              exists key, path :: key in PortableMerge.Keys(base, local, remote)
                                  && PortableMerge.ClashesAt(Get(base, key), Get(local, key), Get(remote, key), path)
  {
    PortableMerge.MergeConflictsIffClash(MergeBase(before), before.local.value.document, before.file.value.document);
  }

  // What becomes of one side's change when this machine cannot write or remove its file:
  // the repository's change waits, this machine's deletion goes through there, and the
  // base stays as it was, so that the next pass comes back to it.
  lemma UnwritableFileWaits(role: Role, before: PathState)
    requires Clear(role) && role.failing && before.conflict.None?
    ensures before.local == before.entry && before.file != before.entry ==>
              CellAfter(role, MergeMode, before) == Cell(before.local, before.file, None, true)
    ensures before.file == before.entry && before.file.Some? && before.local.None? ==>
              CellAfter(role, MergeMode, before) == Cell(None, None, None, true)
    ensures before.file == before.entry && before.local.Some? && before.local != before.entry ==>
              CellAfter(role, MergeMode, before) == Cell(before.local, before.local, None, false)
  {
  }

  // ---- Convergence of one path ----

  // Nothing stands in the way of synchronizing the path.
  predicate Clear(role: Role) {
    role.owned && !role.internal && !role.skipped && !role.blocked && !role.held && role.strategy != InstallManifest
  }

  // Removing or writing the local file is tried and fails.
  predicate LocalFails(role: Role, mode: FirstSyncMode, before: PathState) {
    || (KindOf(role, mode, before.entry, before.local, before.file) in {Some(DeleteRemote), Some(DeleteLocal)}
        && role.failing)
    || (Incoming(role, mode, before).Some? && Shares(role, mode, before).None?)
  }

  // A pass keeps the old base of such a path exactly when the path has a conflict,
  // its merge does not succeed, or writing or removing its local file fails.
  lemma KeptExactly(role: Role, mode: FirstSyncMode, before: PathState)
    requires Clear(role)
    ensures CellAfter(role, mode, before).kept <==>
              before.conflict.Some? || Clashes(role, mode, before) || LocalFails(role, mode, before)
  {
  }

  // A pass that did not have to keep the old base leaves the base, the stored merge
  // base and the repository with one and the same content; and the machine, if and
  // only if its file shares exactly what it received.
  lemma CompletedPassAgrees(role: Role, before: PathState)
    requires Clear(role) && !CellAfter(role, MergeMode, before).kept
    ensures var after := CellAfter(role, MergeMode, before);
            && EntryAfter(role, MergeMode, before) == after.file
            && StoredAfter(role, MergeMode, before) == after.file
            && (after.local == after.file <==> Faithful(role, MergeMode, before))
  {
  }

  // A machine that has nothing of its own to contribute does not touch the repository.
  lemma UnchangedSideOnlyPulls(role: Role, before: PathState)
    requires Clear(role) && before.local == before.entry
    ensures CellAfter(role, MergeMode, before).file == before.file
  {
  }

  // ---- Starting over ----

  // What the text merge must satisfy for a retried pass to be harmless: merging
  // the result again changes nothing, and the result is not the base. The
  // structured merge is proved to satisfy it and the binary merge never gets here.
  predicate TextAbsorbs(role: Role, before: PathState) {
    role.strategy == TextTree && before.stored.Some? && before.local.Some? && before.file.Some? ==>
      var merged := (role.textMerge)(before.stored.value, before.local.value, before.file.value);
      merged.MergedContent? ==>
        && (merged.content == before.stored.value ==> before.local == before.stored && before.file == before.stored)
        && (role.textMerge)(before.stored.value, merged.content, before.file.value) == merged
        && (role.textMerge)(before.stored.value, before.local.value, merged.content) == merged
  }

  // A merge result is never a way back to the base, and merging it again with
  // either side's version reproduces it.
  lemma MergeContentsAbsorb(role: Role, before: PathState)
    requires TextAbsorbs(role, before) && before.local != before.file
    requires MergeContents(role, before.stored, before.local, before.file).MergedContent?
    ensures var merged := MergeContents(role, before.stored, before.local, before.file);
            var content := Some(merged.content);
            && before.local.Some? && before.file.Some?
            && (before.stored.Some? && before.local != before.stored && before.file != before.stored
                ==> content != before.stored)
            && (content != before.file ==> MergeContents(role, before.stored, content, before.file) == merged)
            && (content != before.local ==> MergeContents(role, before.stored, before.local, content) == merged)
  {
    var merged := MergeContents(role, before.stored, before.local, before.file);
    if role.strategy == StructuredMerge {
      var base := if before.stored.None? then map[] else before.stored.value.document;
      var local, remote := before.local.value.document, before.file.value.document;
      PortableMerge.MergeAbsorbs(base, local, remote);
      PortableMerge.MergeSymmetric(base, local, remote);
      PortableMerge.MergeAbsorbs(base, remote, local);
      PortableMerge.MergeSymmetric(base, local, merged.content.document);
      if merged.content.document == base {
        PortableMerge.MergeToBase(base, local, remote);
      }
    }
  }

  // A content that was received faithfully can be received again.
  predicate RestoreSettles(role: Role, before: PathState) {
    var content := Incoming(role, MergeMode, before);
    content.Some? && Faithful(role, MergeMode, before) ==>
      Receive(role, before.stored, content, content.value) == content
  }

  // A rejected push has already written this machine's files. If the repository's
  // version of the path is still the same when the pass starts over, and the local
  // file shares what it received or was not written, the second attempt ends exactly
  // where the first one would have.
  lemma RejectedPushIsHarmless(role: Role, before: PathState)
    requires LocalOwned(role, before) && TextAbsorbs(role, before) && RestoreSettles(role, before)
    requires before.entry.Some? ==> before.stored == before.entry
    ensures var first := CellAfter(role, MergeMode, before);
            var again := before.(local := first.local);
            Faithful(role, MergeMode, before) || Shares(role, MergeMode, before).None? ==>
              && CellAfter(role, MergeMode, again) == first
              && EntryAfter(role, MergeMode, again) == EntryAfter(role, MergeMode, before)
              && StoredAfter(role, MergeMode, again) == StoredAfter(role, MergeMode, before)
  {
    if Merges(role, MergeMode, before) {
      MergeContentsAbsorb(role, before);
    }
  }

  // A pull that was not received faithfully makes the second attempt merge, as if
  // this machine's user had made the difference, unless nothing was changed.
  lemma UnfaithfulPullIsMerged(role: Role, before: PathState)
    requires Clear(role) && before.conflict.None?
    requires KindOf(role, MergeMode, before.entry, before.local, before.file) == Some(PullToLocal)
    requires !Faithful(role, MergeMode, before) && Shares(role, MergeMode, before).Some?
    ensures var first := CellAfter(role, MergeMode, before);
            first.local != before.entry ==>
              KindOf(role, MergeMode, before.entry, first.local, before.file) == Some(MergeBoth)
  {
  }

  // Once the pass is saved, the difference is pushed: what the machine kept replaces
  // what it was to receive.
  lemma UnfaithfulReceiptIsPushed(role: Role, mode: FirstSyncMode, before: PathState)
    requires Clear(role) && !CellAfter(role, mode, before).kept && !Faithful(role, mode, before)
    ensures var first := CellAfter(role, mode, before);
            var next := PathState(first.local, EntryAfter(role, mode, before), StoredAfter(role, mode, before),
                                  first.file, first.conflict);
            && first.local != first.file
            && CellAfter(role, MergeMode, next).file == first.local == CellAfter(role, MergeMode, next).local
  {
  }

  // A pass whose local write failed has kept the old base. The next pass, now able
  // to write, gives the path what the first one meant to; exactly unless a merge gave
  // this machine's own content, which is then not written any more.
  lemma FailedWriteIsCompleted(role: Role, before: PathState)
    requires LocalOwned(role, before) && TextAbsorbs(role, before) && role.failing
    requires before.entry.Some? ==> before.stored == before.entry
    requires before.conflict.None? && CellAfter(role, MergeMode, before).kept
    ensures var failed := CellAfter(role, MergeMode, before);
            var able := role.(failing := false);
            var meant := CellAfter(able, MergeMode, before);
            var next := CellAfter(able, MergeMode, before.(file := failed.file, conflict := failed.conflict));
            && next.file == meant.file && next.conflict == meant.conflict
            && (next.local == meant.local <==>
                  (Incoming(able, MergeMode, before) == before.local && Shares(able, MergeMode, before).Some? ==>
                     Faithful(able, MergeMode, before)))
  {
    if Merges(role, MergeMode, before) {
      MergeContentsAbsorb(role, before);
    }
  }

  // ---- The first synchronization ----

  // Taking the cloud's version makes both sides the cloud's, exactly unless the
  // base already recorded that version and the local side has left it, when the path
  // is deleted instead, or the local file shares something else after receiving it.
  lemma UseCloudExactly(role: Role, before: PathState)
    requires Clear(role) && LocalOwned(role, before) && before.conflict.None? && !role.failing
    ensures var after := CellAfter(role, UseCloud, before);
            after.file == before.file && after.local == before.file
            <==> !(before.file.Some? && before.file == before.entry && before.local != before.file)
                 && Faithful(role, UseCloud, before)
  {
  }

  // Taking this machine's version makes both sides the local one, exactly unless
  // the local file is the recorded base and the repository has left it: then the
  // local file is deleted. With an empty base it always works.
  lemma UseLocalExactly(role: Role, before: PathState)
    requires Clear(role) && LocalOwned(role, before) && before.conflict.None? && !role.failing
    ensures var after := CellAfter(role, UseLocal, before);
            after.local == before.local && after.file == before.local
            <==> !(before.local.Some? && before.local == before.entry && before.file != before.local)
  {
  }

  // Merging on the first run never deletes on either side.
  lemma FirstMergeDeletesNothing(role: Role, before: PathState)
    requires LocalOwned(role, before) && !role.blocked && before.entry.None?
    ensures var after := CellAfter(role, MergeMode, before);
            (before.local.Some? ==> after.local.Some?) && (before.file.Some? ==> after.file.Some?)
  {
  }
}
