// What a pass makes of a configuration file that shares only a part of its leaves.
module PortableSync {
  import opened Strings
  import opened Documents
  import opened DocumentLeaves
  import opened PathResolver
  import opened PortableConfig
  import opened PortableLens
  import opened PortableReceipt
  import opened Snapshots
  import opened ResourcePlanning
  import opened SyncPass
  import opened SyncSafety
  import PortableMerge

  // The document on this computer shares what the pass has collected. A missing file
  // is restored into an empty document.
  ghost predicate Shown(policy: Policy, host: Host, local: Document, shared: Option<Content>) {
    match shared
    case None => local == map[]
    case Some(content) => content.Structured? && Projects(policy, host, local, content.document)
  }

  // Restoring fails with a token that cannot be expanded; otherwise the file then
  // shares the projection of the restored document.
  ghost predicate RestoresTo(policy: Policy, host: Host, local: Document, base: Document, content: Document,
                             received: Option<Content>) {
    match received
    case None => RestoreFails(policy, host, content)
    case Some(after) =>
      && !RestoreFails(policy, host, content) && after.Structured?
      && exists restored :: Restores(policy, host, local, base, content, restored)
                            && Projects(policy, host, restored, after.document)
  }

  // The role restores a content into the local document as a configuration file.
  ghost predicate Configures(policy: Policy, host: Host, role: Role, before: PathState, local: Document,
                             content: Document) {
    && role.strategy == StructuredMerge && !role.failing && Shown(policy, host, local, before.local)
    && RestoresTo(policy, host, local, MergeBase(before), content,
                  (role.restore)(before.stored, before.local, Structured(content)))
  }

  ghost predicate ReturnsAll(policy: Policy, host: Host, local: Document, base: Document, content: Document) {
    !RestoreFails(policy, host, content) && forall path :: Returns(policy, host, local, base, content, path)
  }

  // The file shares the received content, if and only if the content can be restored
  // and every path returns it.
  lemma ReceivedExactly(policy: Policy, host: Host, role: Role, before: PathState, local: Document, content: Document)
    requires Configures(policy, host, role, before, local, content)
    ensures Receive(role, before.stored, before.local, Structured(content)) == Some(Structured(content))
            <==> ReturnsAll(policy, host, local, MergeBase(before), content)
  {
    var received := (role.restore)(before.stored, before.local, Structured(content));
    if received.Some? {
      var restored :| Restores(policy, host, local, MergeBase(before), content, restored)
                      && Projects(policy, host, restored, received.value.document);
      PutGetExactly(policy, host, local, MergeBase(before), content, restored);
      if Projects(policy, host, restored, content) {
        ProjectionUnique(policy, host, restored, content, received.value.document);
      }
    }
  }

  // ---- The first run ----

  // Taking the cloud's document makes both sides the cloud's, if and only if they
  // were, or the base does not record the cloud's and this computer returns it: each
  // received leaf is acceptable, and each leaf that is shared here and not received is
  // overwritten or withdrawn.
  lemma UseCloudConfigExactly(policy: Policy, host: Host, role: Role, before: PathState, local: Document,
                              cloud: Document)
    requires Clear(role) && LocalOwned(role, before) && before.conflict.None?
    requires before.file == Some(Structured(cloud)) && Configures(policy, host, role, before, local, cloud)
    ensures var after := CellAfter(role, UseCloud, before);
            after.file == before.file && after.local == before.file
            <==> before.local == before.file
                 || (before.file != before.entry && ReturnsAll(policy, host, local, MergeBase(before), cloud))
  {
    UseCloudExactly(role, before);
    ReceivedExactly(policy, host, role, before, local, cloud);
  }

  // Without a base nothing is withdrawn: whatever is shared here, is not in the cloud
  // and is not in the way of what is, stays.
  lemma FirstUseCloudExactly(policy: Policy, host: Host, role: Role, before: PathState, local: Document,
                             cloud: Document)
    requires Clear(role) && LocalOwned(role, before) && before.conflict.None?
    requires before.entry.None? && before.stored.None?
    requires before.file == Some(Structured(cloud)) && Configures(policy, host, role, before, local, cloud)
    ensures var after := CellAfter(role, UseCloud, before);
            after.file == before.file && after.local == before.file
            <==> before.local == before.file
                 || (!RestoreFails(policy, host, cloud)
                     && forall path :: ReturnsFirst(policy, host, local, cloud, path))
  {
    UseCloudConfigExactly(policy, host, role, before, local, cloud);
    if forall path :: ReturnsFirst(policy, host, local, cloud, path) {
      forall path: Segments
        ensures Returns(policy, host, local, map[], cloud, path)
      {
        assert ReturnsFirst(policy, host, local, cloud, path);
      }
    } else {
      var path :| !ReturnsFirst(policy, host, local, cloud, path);
      assert !Returns(policy, host, local, map[], cloud, path);
    }
  }

  const CONFIGURATION := PLAIN.(strategy := StructuredMerge,
                                restore := (stored, local, content) => Some(Structured(BOTH)))

  const FIRST_RUN := PathState(Some(Structured(HERE)), None, None, Some(Structured(CLOUD)), None)

  // {a: 1, b: 2} here, {a: 3} in the cloud, no base, and "use cloud": the file becomes
  // {a: 3, b: 2}, and the next pass pushes b to the cloud.
  lemma UseCloudCanKeepLocalLeaves()
    ensures Configures(EVERYTHING, HOST, CONFIGURATION, FIRST_RUN, HERE, CLOUD)
    ensures forall path :: Accepts(EVERYTHING, HERE, CLOUD, path)
    ensures var first := CellAfter(CONFIGURATION, UseCloud, FIRST_RUN);
            var next := PathState(first.local, EntryAfter(CONFIGURATION, UseCloud, FIRST_RUN),
                                  StoredAfter(CONFIGURATION, UseCloud, FIRST_RUN), first.file, first.conflict);
            && first.file == Some(Structured(CLOUD)) && first.local == Some(Structured(BOTH)) && !first.kept
            && CellAfter(CONFIGURATION, MergeMode, next).file == Some(Structured(BOTH))
  {
    FirstReceiptKeepsLocalLeaves();
    assert "b" in HERE && "b" in BOTH && "b" !in CLOUD;
    UnfaithfulReceiptIsPushed(CONFIGURATION, UseCloud, FIRST_RUN);
  }

  // ---- Merges ----

  // After a successful merge the machine and the repository share the same, if and
  // only if the merged document can be restored and each of its leaves returns.
  lemma MergeConfigExactly(policy: Policy, host: Host, role: Role, before: PathState, local: Document, merged: Document)
    requires Clear(role) && LocalOwned(role, before) && before.conflict.None?
    requires before.local.Some? && Merges(role, MergeMode, before)
    requires Incoming(role, MergeMode, before) == Some(Structured(merged))
    requires Configures(policy, host, role, before, local, merged)
    ensures var after := CellAfter(role, MergeMode, before);
            after.file == Some(Structured(merged)) &&
            (after.local == after.file && !after.kept
             <==> !RestoreFails(policy, host, merged)
                  && forall path | LeafAt(merged, path).Some? ::
                       Returns(policy, host, local, MergeBase(before), merged, path))
  {
    var base, shared, remote := MergeBase(before), before.local.value.document, before.file.value.document;
    assert PortableMerge.MergeDocuments(base, shared, remote) == PortableMerge.MergedMap(merged);
    ReceivedExactly(policy, host, role, before, local, merged);
    if !RestoreFails(policy, host, merged) && forall path | LeafAt(merged, path).Some? ::
        Returns(policy, host, local, base, merged, path) {
      forall path: Segments
        ensures Returns(policy, host, local, base, merged, path)
      {
        if LeafAt(merged, path).None? {
          DroppedLeafIsTakenOut(policy, host, local, shared, base, remote, merged, path);
        }
      }
    }
  }

  // What was received as it was is received again as it was.
  lemma ConfigSettles(policy: Policy, host: Host, local: Document, base: Document, content: Document,
                      restored: Document)
    requires Restores(policy, host, local, base, content, restored)
    requires ReturnsAll(policy, host, local, base, content)
    ensures ReturnsAll(policy, host, restored, base, content)
  {
    PutGetExactly(policy, host, local, base, content, restored);
    forall path: Segments
      ensures Returns(policy, host, restored, base, content, path)
    {
      assert Returns(policy, host, local, base, content, path);
      assert LeafAt(content, path) == Shared(policy, host, path, LeafAt(restored, path));
    }
  }

  lemma ConfigRestoreSettles(policy: Policy, host: Host, role: Role, before: PathState, local: Document,
                             content: Document, restored: Document)
    requires Incoming(role, MergeMode, before) == Some(Structured(content))
    requires Configures(policy, host, role, before, local, content)
    requires Restores(policy, host, local, MergeBase(before), content, restored)
    requires Configures(policy, host, role, before.(local := Some(Structured(content))), restored, content)
    ensures RestoreSettles(role, before)
  {
    ReceivedExactly(policy, host, role, before, local, content);
    if Faithful(role, MergeMode, before) {
      ConfigSettles(policy, host, local, MergeBase(before), content, restored);
      ReceivedExactly(policy, host, role, before.(local := Some(Structured(content))), restored, content);
    }
  }
}
