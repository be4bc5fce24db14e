// What putting a received document into a local one gives back, on a first run and
// after a merge, where the local document has left the base.
module PortableReceipt {
  import opened Strings
  import opened Documents
  import opened DocumentLeaves
  import opened PathResolver
  import opened PortableConfig
  import opened PortableLens
  import opened PortableMerge

  // ---- Without a base ----

  // A received leaf must be acceptable, and a leaf that is shared here and was not
  // received must be in the way of one that is written: nothing else takes it out.
  ghost predicate ReturnsFirst(policy: Policy, host: Host, local: Document, remote: Document, path: Segments) {
    match LeafAt(remote, path)
    case Some(leaf) =>
      && Shared(policy, host, path, Some(leaf)) == Some(leaf)
      && (if leaf == Object(map[]) then LeafAt(local, path) == Some(leaf)
          else IsPathField(policy, path) ==> CanonicalValue(leaf))
    case None =>
      Shared(policy, host, path, LeafAt(local, path)).Some? ==> Overwrites(policy, host, remote, path)
  }

  lemma FirstPutGetExactly(policy: Policy, host: Host, local: Document, remote: Document, restored: Document)
    requires Restores(policy, host, local, map[], remote, restored) && !RestoreFails(policy, host, remote)
    ensures Projects(policy, host, restored, remote) <==>
              forall path :: ReturnsFirst(policy, host, local, remote, path)
  {
    PutGetExactly(policy, host, local, map[], remote, restored);
    forall path: Segments
      ensures Returns(policy, host, local, map[], remote, path) <==> ReturnsFirst(policy, host, local, remote, path)
    {
    }
    if forall path :: ReturnsFirst(policy, host, local, remote, path) {
      assert forall path :: Returns(policy, host, local, map[], remote, path);
    } else {
      var path :| !ReturnsFirst(policy, host, local, remote, path);
      assert !Returns(policy, host, local, map[], remote, path);
    }
  }

  // ---- After a merge ----

  lemma {:induction false} LeafOfSlot(slot: Slot, path: Segments)
    ensures (if slot.Present? then LeafUnder(slot.node, path) else None)
         == (if At(slot, path).Present? && IsLeaf(At(slot, path).node) then Some(At(slot, path).node) else None)
    decreases |path|
  {
    if path != [] && slot.Present? && slot.node.Object? {
      LeafOfSlot(Get(slot.node.fields, path[0]), path[1..]);
    }
  }

  lemma {:induction false} LeafBelow(slot: Slot, path: Segments, rest: Segments)
    requires At(slot, path).Present?
    ensures slot.Present? && LeafUnder(slot.node, path + rest) == LeafUnder(At(slot, path).node, rest)
    decreases |path|
  {
    if path == [] {
      assert path + rest == rest;
    } else {
      LeafBelow(Get(slot.node.fields, path[0]), path[1..], rest);
      assert path + rest == [path[0]] + (path[1..] + rest);
      LeafUnderKey(slot.node.fields, path[0], path[1..] + rest);
    }
  }

  function SlotAt(document: Document, path: Segments): Slot
    requires path != []
  {
    At(Get(document, path[0]), path[1..])
  }

  lemma LeafIsSlot(document: Document, path: Segments)
    requires path != []
    ensures LeafAt(document, path)
         == if SlotAt(document, path).Present? && IsLeaf(SlotAt(document, path).node)
            then Some(SlotAt(document, path).node) else None
  {
    LeafOfSlot(Get(document, path[0]), path[1..]);
  }

  lemma MergedSlot(base: Document, local: Document, remote: Document, merged: Document, path: Segments)
    requires MergeDocuments(base, local, remote) == MergedMap(merged) && path != []
    ensures ThreeWay(SlotAt(base, path), SlotAt(local, path), SlotAt(remote, path), SlotAt(merged, path))
    ensures !Clash(SlotAt(base, path), SlotAt(local, path), SlotAt(remote, path))
  {
    var key := path[0];
    AtAbsent(path[1..]);
    if key in Keys(base, local, remote) {
      assert MergeKey(base, local, remote, key).Merged?;
      assert Get(merged, key) == MergeKey(base, local, remote, key).slot;
      MergeThreeWay(Get(base, key), Get(local, key), Get(remote, key), path[1..]);
      if Clash(SlotAt(base, path), SlotAt(local, path), SlotAt(remote, path)) {
        ClashConflicts(Get(base, key), Get(local, key), Get(remote, key), path[1..]);
      }
    }
  }

  // A local leaf that a merge drops was the base's, or it was an empty object that
  // the merge fills.
  lemma DroppedLeaf(base: Document, local: Document, remote: Document, merged: Document, path: Segments)
    requires MergeDocuments(base, local, remote) == MergedMap(merged)
    requires LeafAt(local, path).Some? && LeafAt(merged, path).None?
    ensures || LeafAt(base, path) == LeafAt(local, path)
            || (LeafAt(local, path) == Some(Object(map[])) && IsMap(SlotAt(merged, path))
                && !IsLeaf(SlotAt(merged, path).node))
  {
    LeafIsSlot(base, path);
    LeafIsSlot(local, path);
    LeafIsSlot(merged, path);
    MergedSlot(base, local, remote, merged, path);
  }

  lemma FilledObject(policy: Policy, host: Host, local: Document, base: Document, merged: Document, path: Segments)
    requires LeafAt(local, path) == Some(Object(map[])) && IsMap(SlotAt(merged, path))
    requires !IsLeaf(SlotAt(merged, path).node) && !RestoreFails(policy, host, merged)
    requires forall path | LeafAt(merged, path).Some? :: Returns(policy, host, local, base, merged, path)
    ensures Overwrites(policy, host, merged, path)
  {
    var rest := HasLeaf(SlotAt(merged, path).node);
    LeafBelow(Get(merged, path[0]), path[1..], rest);
    var below := path + rest;
    assert below == [path[0]] + (path[1..] + rest);
    LeafUnderKey(merged, path[0], path[1..] + rest);
    assert LeafAt(merged, below).Some?;
    assert Returns(policy, host, local, base, merged, below);
    SharedFormIsWritten(policy, host, merged, below);
    if LeafAt(merged, below).value == Object(map[]) {
      LeavesUnrelated(local, path, below);
    }
    assert Related(path, below);
  }

  lemma DroppedLeafIsTakenOut(policy: Policy, host: Host, local: Document, shared: Document, base: Document,
                              remote: Document, merged: Document, path: Segments)
    requires Projects(policy, host, local, shared) && MergeDocuments(base, shared, remote) == MergedMap(merged)
    requires !RestoreFails(policy, host, merged) && LeafAt(merged, path).None?
    requires forall path | LeafAt(merged, path).Some? :: Returns(policy, host, local, base, merged, path)
    ensures Returns(policy, host, local, base, merged, path)
  {
    var leaf := LeafAt(local, path);
    assert LeafAt(shared, path) == Shared(policy, host, path, leaf);
    if LeafAt(shared, path).Some? {
      DroppedLeaf(base, shared, remote, merged, path);
      if LeafAt(base, path) == LeafAt(shared, path) {
        assert Withdrawn(policy, base, merged, path) && Removes(path, path, leaf);
      } else {
        FilledObject(policy, host, local, base, merged, path);
      }
    }
  }

  // After a merge only the leaves of the merged document matter: sharing the restored
  // document gives the merged one, if and only if each of them is a shared form with
  // canonical tokens, and each empty object is here already and not taken out.
  lemma MergedPutGetExactly(policy: Policy, host: Host, local: Document, shared: Document, base: Document,
                            remote: Document, merged: Document, restored: Document)
    requires Projects(policy, host, local, shared) && MergeDocuments(base, shared, remote) == MergedMap(merged)
    requires Restores(policy, host, local, base, merged, restored) && !RestoreFails(policy, host, merged)
    ensures Projects(policy, host, restored, merged) <==>
              forall path | LeafAt(merged, path).Some? :: Returns(policy, host, local, base, merged, path)
  {
    PutGetExactly(policy, host, local, base, merged, restored);
    if forall path | LeafAt(merged, path).Some? :: Returns(policy, host, local, base, merged, path) {
      forall path: Segments
        ensures Returns(policy, host, local, base, merged, path)
      {
        if LeafAt(merged, path).None? {
          DroppedLeafIsTakenOut(policy, host, local, shared, base, remote, merged, path);
        }
      }
    }
  }

  // ---- Three receipts that give something else back ----

  const EVERYTHING := Policy(path => true, path => false, path => false, path => false)
  const HOST := Host(false, "/home")

  function Number(value: string): Node {
    Scalar(value)
  }

  predicate IsShallow(node: Node) {
    node.Object? ==> forall key :: key in node.fields ==> IsLeaf(node.fields[key])
  }

  // The leaves of a document of at most two levels.
  lemma ShallowLeaf(document: Document, path: Segments)
    requires forall key :: key in document ==> IsShallow(document[key])
    ensures LeafAt(document, path)
         == if path == [] || path[0] !in document then None
            else if |path| == 1 then (if IsLeaf(document[path[0]]) then Some(document[path[0]]) else None)
            else if |path| == 2 && document[path[0]].Object? && path[1] in document[path[0]].fields
                 then Some(document[path[0]].fields[path[1]]) else None
  {
    if path != [] && path[0] in document && |path| > 1 && document[path[0]].Object? {
      var fields, rest := document[path[0]].fields, path[1..];
      assert LeafUnder(document[path[0]], rest) == LeafAt(fields, rest);
      if rest[0] in fields {
        NothingUnderLeaf(fields[rest[0]], rest[1..]);
      }
    }
  }

  lemma EverythingIsShared(document: Document)
    ensures Projects(EVERYTHING, HOST, document, document) && !RestoreFails(EVERYTHING, HOST, document)
  {
  }

  // The first run takes the cloud's document: what only this computer has stays.
  const HERE: Document := map["a" := Number("1"), "b" := Number("2")]
  const CLOUD: Document := map["a" := Number("3")]
  const BOTH: Document := map["a" := Number("3"), "b" := Number("2")]

  lemma WrittenInCloud(path: Segments)
    ensures Written(EVERYTHING, HOST, CLOUD, path) <==> path == ["a"]
  {
    ShallowLeaf(CLOUD, path);
    if |path| == 1 {
      assert path == [path[0]];
    }
  }

  lemma FirstReceiptKeepsLocalLeaves()
    ensures Restores(EVERYTHING, HOST, HERE, map[], CLOUD, BOTH)
    ensures Projects(EVERYTHING, HOST, HERE, HERE) && Projects(EVERYTHING, HOST, BOTH, BOTH)
    ensures !RestoreFails(EVERYTHING, HOST, CLOUD) && Projects(EVERYTHING, HOST, CLOUD, CLOUD)
    ensures (forall path :: Accepts(EVERYTHING, HERE, CLOUD, path)) && BOTH != CLOUD
  {
    EverythingIsShared(HERE);
    EverythingIsShared(BOTH);
    EverythingIsShared(CLOUD);
    assert "b" in BOTH && "b" !in CLOUD;
    forall path: Segments
      ensures LeafAt(BOTH, path) == RestoredLeaf(EVERYTHING, HOST, HERE, map[], CLOUD, path)
      ensures Accepts(EVERYTHING, HERE, CLOUD, path)
    {
      ShallowLeaf(HERE, path);
      ShallowLeaf(CLOUD, path);
      ShallowLeaf(BOTH, path);
      WrittenInCloud(path);
      WrittenInCloud(["a"]);
      if segments :| Written(EVERYTHING, HOST, CLOUD, segments) && Related(path, segments) {
        WrittenInCloud(segments);
      }
      if |path| == 1 {
        assert path == [path[0]];
      }
    }
  }

  // An empty object of the base got an entry here, beside one that is not shared. A
  // merge with a change elsewhere shares the new entry, and loses the other.
  const SECRETIVE := Policy(path => true, path => path == "s.k", path => false, path => false)

  const EMPTY_BASE: Document := map["s" := Object(map[]), "z" := Number("0")]
  const FILLED: Document := map["s" := Object(map["a" := Number("2"), "k" := Number("9")]), "z" := Number("0")]
  const FILLED_SHARED: Document := map["s" := Object(map["a" := Number("2")]), "z" := Number("0")]
  const EMPTY_REMOTE: Document := map["s" := Object(map[]), "z" := Number("1")]
  const FILLED_MERGED: Document := map["s" := Object(map["a" := Number("2")]), "z" := Number("1")]

  // Two keys, one moved here and one there.
  lemma MergedByKeys(base: Document, local: Document, remote: Document, merged: Document)
    requires base.Keys == local.Keys == remote.Keys == merged.Keys
    requires forall key :: key in base ==>
               (local[key] == base[key] && merged[key] == remote[key])
               || (remote[key] == base[key] && merged[key] == local[key])
    ensures MergeDocuments(base, local, remote) == MergedMap(merged)
  {
    forall key | key in Keys(base, local, remote)
      ensures MergeKey(base, local, remote, key) == Merged(Get(merged, key))
    {
    }
    GetExtensional(MergeDocuments(base, local, remote).document, merged);
  }

  lemma TwoKeys(path: Segments)
    requires |path| == 2
    ensures KeyPath(path) == path[0] + "." + path[1]
  {
    assert path[1..] == [path[1]];
    assert Join(path[1..], '.') == path[1];
  }

  lemma FilledIsShared()
    ensures Projects(SECRETIVE, HOST, FILLED, FILLED_SHARED)
  {
    assert "a" in FILLED["s"].fields && "a" in FILLED_SHARED["s"].fields;
    forall path: Segments
      ensures LeafAt(FILLED_SHARED, path) == Shared(SECRETIVE, HOST, path, LeafAt(FILLED, path))
    {
      ShallowLeaf(FILLED, path);
      ShallowLeaf(FILLED_SHARED, path);
      if |path| == 1 {
        assert path == [path[0]] && KeyPath(path) == path[0];
      } else if |path| == 2 {
        TwoKeys(path);
        assert path[1] == "a" ==> KeyPath(path)[|path[0]| + 1] == 'a';
        assert path == ["s", "k"] ==> KeyPath(path) == "s.k";
      }
    }
  }

  lemma FilledLosesSecret()
    ensures LeafAt(FILLED, ["s", "k"]).Some? && !IsPortable(SECRETIVE, ["s", "k"])
    ensures Deletes(SECRETIVE, EMPTY_BASE, FILLED_MERGED, ["s", "k"], LeafAt(FILLED, ["s", "k"]))
  {
    ShallowLeaf(FILLED, ["s", "k"]);
    TwoKeys(["s", "k"]);
    ShallowLeaf(EMPTY_BASE, ["s"]);
    ShallowLeaf(FILLED_MERGED, ["s"]);
    assert KeyPath(["s"]) == "s" && "a" in FILLED_MERGED["s"].fields;
    assert Withdrawn(SECRETIVE, EMPTY_BASE, FILLED_MERGED, ["s"]);
    assert Removes(["s"], ["s", "k"], LeafAt(FILLED, ["s", "k"]));
  }

  lemma NothingWrittenOverSecret()
    ensures !Overwrites(SECRETIVE, HOST, FILLED_MERGED, ["s", "k"])
  {
    if segments :| Written(SECRETIVE, HOST, FILLED_MERGED, segments) && Related(["s", "k"], segments) {
      ShallowLeaf(FILLED_MERGED, segments);
    }
  }

  lemma MergeCanLoseUnsharedLeaf()
    ensures Projects(SECRETIVE, HOST, FILLED, FILLED_SHARED)
    ensures MergeDocuments(EMPTY_BASE, FILLED_SHARED, EMPTY_REMOTE) == MergedMap(FILLED_MERGED)
    ensures LeafAt(FILLED, ["s", "k"]).Some? && !IsPortable(SECRETIVE, ["s", "k"])
    ensures !Overwrites(SECRETIVE, HOST, FILLED_MERGED, ["s", "k"])
    ensures forall restored :: Restores(SECRETIVE, HOST, FILLED, EMPTY_BASE, FILLED_MERGED, restored) ==>
              LeafAt(restored, ["s", "k"]) == None
  {
    FilledIsShared();
    MergedByKeys(EMPTY_BASE, FILLED_SHARED, EMPTY_REMOTE, FILLED_MERGED);
    FilledLosesSecret();
    NothingWrittenOverSecret();
    forall restored | Restores(SECRETIVE, HOST, FILLED, EMPTY_BASE, FILLED_MERGED, restored)
      ensures LeafAt(restored, ["s", "k"]) == None
    {
      UnsharedLeafSurvivesExactly(SECRETIVE, HOST, FILLED, EMPTY_BASE, FILLED_MERGED, restored, ["s", "k"]);
    }
  }

  // An object was emptied here. A merge with a change elsewhere shares the empty
  // object, and the restored document does not have it any more.
  const FULL_BASE: Document := map["p" := Object(map["q" := Number("1")]), "z" := Number("0")]
  const EMPTIED: Document := map["p" := Object(map[]), "z" := Number("0")]
  const FULL_REMOTE: Document := map["p" := Object(map["q" := Number("1")]), "z" := Number("1")]
  const EMPTIED_MERGED: Document := map["p" := Object(map[]), "z" := Number("1")]

  lemma EmptyObjectIsTakenOut()
    ensures LeafAt(EMPTIED_MERGED, ["p"]) == LeafAt(EMPTIED, ["p"]) == Some(Object(map[]))
    ensures Deletes(EVERYTHING, FULL_BASE, EMPTIED_MERGED, ["p"], LeafAt(EMPTIED, ["p"]))
  {
    ShallowLeaf(EMPTIED, ["p"]);
    ShallowLeaf(EMPTIED_MERGED, ["p"]);
    ShallowLeaf(FULL_BASE, ["p", "q"]);
    ShallowLeaf(EMPTIED_MERGED, ["p", "q"]);
    assert Withdrawn(EVERYTHING, FULL_BASE, EMPTIED_MERGED, ["p", "q"]);
    assert Removes(["p", "q"], ["p"], LeafAt(EMPTIED, ["p"]));
  }

  lemma EmptiedIsAccepted()
    ensures forall path :: Accepts(EVERYTHING, EMPTIED, EMPTIED_MERGED, path)
  {
    forall path: Segments
      ensures Accepts(EVERYTHING, EMPTIED, EMPTIED_MERGED, path)
    {
      ShallowLeaf(EMPTIED, path);
      ShallowLeaf(EMPTIED_MERGED, path);
    }
  }

  lemma MergeCanLoseEmptyObject()
    ensures Projects(EVERYTHING, HOST, EMPTIED, EMPTIED) && !RestoreFails(EVERYTHING, HOST, EMPTIED_MERGED)
    ensures MergeDocuments(FULL_BASE, EMPTIED, FULL_REMOTE) == MergedMap(EMPTIED_MERGED)
    ensures forall path :: Accepts(EVERYTHING, EMPTIED, EMPTIED_MERGED, path)
    ensures forall restored :: Restores(EVERYTHING, HOST, EMPTIED, FULL_BASE, EMPTIED_MERGED, restored) ==>
              !Projects(EVERYTHING, HOST, restored, EMPTIED_MERGED)
  {
    EverythingIsShared(EMPTIED);
    EverythingIsShared(EMPTIED_MERGED);
    MergedByKeys(FULL_BASE, EMPTIED, FULL_REMOTE, EMPTIED_MERGED);
    EmptiedIsAccepted();
    EmptyObjectIsTakenOut();
    forall restored | Restores(EVERYTHING, HOST, EMPTIED, FULL_BASE, EMPTIED_MERGED, restored)
      ensures !Projects(EVERYTHING, HOST, restored, EMPTIED_MERGED)
    {
      PutGetExactly(EVERYTHING, HOST, EMPTIED, FULL_BASE, EMPTIED_MERGED, restored);
      assert !Returns(EVERYTHING, HOST, EMPTIED, FULL_BASE, EMPTIED_MERGED, ["p"]);
    }
  }
}
