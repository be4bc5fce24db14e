// internal/portablemerge/merge.go: the recursive three-way merge of structured documents.
module PortableMerge {
  import opened Documents

  datatype Outcome = Merged(slot: Slot) | Conflict
  datatype MapOutcome = MergedMap(document: Document) | MapConflict

  // A base that can be merged under two objects: missing, or itself an object.
  predicate MapBase(base: Slot) {
    base.Absent? || base.node.Object?
  }

  predicate IsMap(slot: Slot) {
    slot.Present? && slot.node.Object?
  }

  function BaseFields(base: Slot): Document
    requires MapBase(base)
  {
    if base.Absent? then map[] else base.node.fields
  }

  function Keys(base: Document, local: Document, remote: Document): set<string> {
    base.Keys + local.Keys + remote.Keys
  }

  // The merge of one key: equal sides win, then the side that moved away from
  // base; two objects are merged key by key; anything else conflicts.
  function MergeSlot(base: Slot, local: Slot, remote: Slot): Outcome
    decreases if local.Present? then 1 else 0, if local.Present? then local.node else Scalar(""), 1, 0
  {
    if local == remote then Merged(local)
    else if base == local then Merged(remote)
    else if base == remote then Merged(local)
    else if IsMap(local) && IsMap(remote) && MapBase(base) then
      match MergeDocuments(BaseFields(base), local.node.fields, remote.node.fields)
      case MergedMap(document) => Merged(Present(Object(document)))
      case MapConflict => Conflict
    else Conflict
  }

  function MergeKey(base: Document, local: Document, remote: Document, key: string): Outcome
    decreases 1, Object(local), 0, 0
  {
    if key in local then
      assert local[key] < Object(local);
      MergeSlot(Get(base, key), Present(local[key]), Get(remote, key))
    else MergeSlot(Get(base, key), Absent, Get(remote, key))
  }

  function MergeDocuments(base: Document, local: Document, remote: Document): MapOutcome
    decreases 1, Object(local), 0, 1
  {
    if exists key | key in Keys(base, local, remote) :: MergeKey(base, local, remote, key).Conflict? then MapConflict
    else MergedMap(map key | key in Keys(base, local, remote) && MergeKey(base, local, remote, key).slot.Present?
                           :: MergeKey(base, local, remote, key).slot.node)
  }

  // ---- The three-way law at every key path ----

  // What an unconflicted merge owes one path: agreement is kept, a side that did
  // not move from base yields to the other, and any value that is not a merged
  // object was already there on one of the sides.
  ghost predicate ThreeWay(base: Slot, local: Slot, remote: Slot, merged: Slot) {
    && (local == remote ==> merged == local)
    && (base == local ==> merged == remote)
    && (base == remote ==> merged == local)
    && (merged == local || merged == remote || (IsMap(merged) && IsMap(local) && IsMap(remote) && MapBase(base)))
  }

  lemma {:induction false} MergeThreeWay(base: Slot, local: Slot, remote: Slot, path: seq<string>)
    requires MergeSlot(base, local, remote).Merged?
    ensures ThreeWay(At(base, path), At(local, path), At(remote, path), At(MergeSlot(base, local, remote).slot, path))
    decreases |path|
  {
    var merged := MergeSlot(base, local, remote).slot;
    if path != [] && local != remote && base != local && base != remote {
      var b, l, r := BaseFields(base), local.node.fields, remote.node.fields;
      var key := path[0];
      AtAbsent(path[1..]);
      if key in Keys(b, l, r) {
        assert MergeKey(b, l, r, key).Merged?;
        assert Get(merged.node.fields, key) == MergeKey(b, l, r, key).slot;
        MergeThreeWay(Get(b, key), Get(l, key), Get(r, key), path[1..]);
      }
    }
  }

  // ---- Exactly when a merge conflicts ----

  predicate AllDifferent(base: Slot, local: Slot, remote: Slot) {
    base != local && base != remote && local != remote
  }

  // A path on which the three documents disagree and key-by-key merging cannot help.
  predicate Clash(base: Slot, local: Slot, remote: Slot) {
    AllDifferent(base, local, remote) && !(IsMap(local) && IsMap(remote) && MapBase(base))
  }

  ghost predicate ClashesAt(base: Slot, local: Slot, remote: Slot, path: seq<string>) {
    Clash(At(base, path), At(local, path), At(remote, path))
  }

  lemma {:induction false} ConflictHasClash(base: Slot, local: Slot, remote: Slot) returns (path: seq<string>)
    requires MergeSlot(base, local, remote).Conflict?
    ensures ClashesAt(base, local, remote, path)
    decreases if local.Present? then 1 else 0, if local.Present? then local.node else Scalar("")
  {
    if Clash(base, local, remote) {
      return [];
    }
    var b, l, r := BaseFields(base), local.node.fields, remote.node.fields;
    var key :| key in Keys(b, l, r) && MergeKey(b, l, r, key).Conflict?;
    if key in l {
      assert l[key] < local.node;
    }
    var rest := ConflictHasClash(Get(b, key), Get(l, key), Get(r, key));
    path := [key] + rest;
    AtChild(base, key, rest);
    AtChild(local, key, rest);
    AtChild(remote, key, rest);
    AtAbsent(rest);
  }

  lemma {:induction false} ClashConflicts(base: Slot, local: Slot, remote: Slot, path: seq<string>)
    requires ClashesAt(base, local, remote, path)
    ensures MergeSlot(base, local, remote).Conflict?
    decreases |path|
  {
    if path != [] && !Clash(base, local, remote) {
      var b, l, r := BaseFields(base), local.node.fields, remote.node.fields;
      var key := path[0];
      AtAbsent(path[1..]);
      ClashConflicts(Get(b, key), Get(l, key), Get(r, key), path[1..]);
      assert key in Keys(b, l, r);
      assert MergeKey(b, l, r, key).Conflict?;
    }
  }

  // A document merge reports a conflict exactly when some path clashes.
  lemma MergeConflictsIffClash(base: Document, local: Document, remote: Document)
    ensures MergeDocuments(base, local, remote).MapConflict? <==>
            exists key, path :: key in Keys(base, local, remote) &&
                                ClashesAt(Get(base, key), Get(local, key), Get(remote, key), path)
  {
    if MergeDocuments(base, local, remote).MapConflict? {
      var key :| key in Keys(base, local, remote) && MergeKey(base, local, remote, key).Conflict?;
      var path := ConflictHasClash(Get(base, key), Get(local, key), Get(remote, key));
    }
    if key, path :| key in Keys(base, local, remote) &&
                    ClashesAt(Get(base, key), Get(local, key), Get(remote, key), path) {
      ClashConflicts(Get(base, key), Get(local, key), Get(remote, key), path);
      assert MergeKey(base, local, remote, key).Conflict?;
    }
  }

  // ---- Symmetry, absorption and the merge that goes nowhere ----

  lemma {:induction false} MergeSlotSymmetric(base: Slot, local: Slot, remote: Slot)
    ensures MergeSlot(base, local, remote) == MergeSlot(base, remote, local)
    decreases if local.Present? then 1 else 0, if local.Present? then local.node else Scalar(""), 1
  {
    if AllDifferent(base, local, remote) && IsMap(local) && IsMap(remote) && MapBase(base) {
      assert Object(local.node.fields) == local.node;
      MergeSymmetric(BaseFields(base), local.node.fields, remote.node.fields);
    }
  }

  // Swapping this computer's document with the repository's changes nothing.
  lemma {:induction false} MergeSymmetric(base: Document, local: Document, remote: Document)
    ensures MergeDocuments(base, local, remote) == MergeDocuments(base, remote, local)
    decreases 1, Object(local), 0
  {
    assert Keys(base, local, remote) == Keys(base, remote, local);
    forall key | key in Keys(base, local, remote)
      ensures MergeKey(base, local, remote, key) == MergeKey(base, remote, local, key)
    {
      if key in local {
        assert local[key] < Object(local);
      }
      MergeSlotSymmetric(Get(base, key), Get(local, key), Get(remote, key));
    }
  }

  lemma {:induction false} MergeSlotAbsorbs(base: Slot, local: Slot, remote: Slot)
    requires MergeSlot(base, local, remote).Merged?
    ensures MergeSlot(base, MergeSlot(base, local, remote).slot, remote) == MergeSlot(base, local, remote)
    decreases if local.Present? then 1 else 0, if local.Present? then local.node else Scalar(""), 1
  {
    if AllDifferent(base, local, remote) {
      assert Object(local.node.fields) == local.node;
      MergeAbsorbs(BaseFields(base), local.node.fields, remote.node.fields);
      var merged := MergeDocuments(BaseFields(base), local.node.fields, remote.node.fields).document;
      if base == Present(Object(merged)) {
        MergeToBase(merged, local.node.fields, remote.node.fields);
      }
    }
  }

  // Merging the result again with the same repository document reproduces it.
  lemma {:induction false} MergeAbsorbs(base: Document, local: Document, remote: Document)
    requires MergeDocuments(base, local, remote).MergedMap?
    ensures MergeDocuments(base, MergeDocuments(base, local, remote).document, remote)
         == MergeDocuments(base, local, remote)
    decreases 1, Object(local), 0
  {
    var merged := MergeDocuments(base, local, remote).document;
    forall key | key in Keys(base, local, remote)
      ensures MergeKey(base, merged, remote, key) == MergeKey(base, local, remote, key)
    {
      assert MergeKey(base, local, remote, key).Merged?;
      assert Get(merged, key) == MergeKey(base, local, remote, key).slot;
      if key in local {
        assert local[key] < Object(local);
      }
      MergeSlotAbsorbs(Get(base, key), Get(local, key), Get(remote, key));
    }
    forall key | key in Keys(base, merged, remote)
      ensures key in Keys(base, local, remote)
    {
    }
  }

  // A merge gives the base back only when neither side had moved.
  lemma {:induction false} MergeToBase(base: Document, local: Document, remote: Document)
    requires MergeDocuments(base, local, remote) == MergedMap(base)
    ensures local == base && remote == base
    decreases 1, Object(local), 0
  {
    forall key | key in Keys(base, local, remote)
      ensures Get(local, key) == Get(base, key) == Get(remote, key)
    {
      assert MergeKey(base, local, remote, key).Merged?;
      var b, l, r := Get(base, key), Get(local, key), Get(remote, key);
      assert MergeSlot(b, l, r).slot == b;
      if AllDifferent(b, l, r) {
        assert l == Present(local[key]) && local[key] < Object(local);
        assert Object(l.node.fields) == l.node;
        MergeToBase(BaseFields(b), l.node.fields, r.node.fields);
      }
    }
    GetExtensional(base, local);
    GetExtensional(base, remote);
  }

  lemma GetExtensional(left: Document, right: Document)
    requires forall key | key in left.Keys + right.Keys :: Get(left, key) == Get(right, key)
    ensures left == right
  {
    assert forall key | key in left.Keys + right.Keys :: key in left && key in right && left[key] == right[key];
    assert left.Keys == right.Keys;
  }

  // A merge whose result is one of the inputs' common value, stated for whole documents.
  lemma MergeOneSided(base: Document, other: Document)
    ensures MergeDocuments(base, base, other) == MergedMap(other)
    ensures MergeDocuments(base, other, base) == MergedMap(other)
    ensures MergeDocuments(base, other, other) == MergedMap(other)
  {
    forall local, remote | (local == base && remote == other) || (local == other && remote == base)
                           || (local == other && remote == other)
      ensures MergeDocuments(base, local, remote) == MergedMap(other)
    {
      forall key | key in Keys(base, local, remote)
        ensures MergeKey(base, local, remote, key) == Merged(Get(other, key))
      {
      }
      var merged := MergeDocuments(base, local, remote).document;
      forall key | key in merged.Keys + other.Keys
        ensures Get(merged, key) == Get(other, key)
      {
        assert key in Keys(base, local, remote);
      }
      GetExtensional(merged, other);
    }
  }

  // ---- The loops of the source ----

  // mergeMaps: visits the union of the keys in whatever order the map yields
  // them and gives up at the first conflict.
  method MergeMaps(base: Document, local: Document, remote: Document) returns (out: Document, conflict: bool)
    ensures conflict <==> MergeDocuments(base, local, remote).MapConflict?
    ensures !conflict ==> MergedMap(out) == MergeDocuments(base, local, remote)
    decreases 1, Object(local), 0
  {
    out := map[];
    var keys := Keys(base, local, remote);
    ghost var done: set<string> := {};
    while keys != {}
      invariant keys !! done && keys + done == Keys(base, local, remote)
      invariant forall key | key in done :: MergeKey(base, local, remote, key).Merged?
      invariant out.Keys <= done
      invariant forall key | key in done :: Get(out, key) == MergeKey(base, local, remote, key).slot
      decreases keys
    {
      var key :| key in keys;
      if key in local {
        assert local[key] < Object(local);
      }
      var merged, clash := MergeNode(Get(base, key), Get(local, key), Get(remote, key));
      if clash {
        assert MergeKey(base, local, remote, key).Conflict?;
        return map[], true;
      }
      if merged.Present? {
        out := out[key := merged.node];
      }
      keys := keys - {key};
      done := done + {key};
    }
    conflict := false;
    assert MergeDocuments(base, local, remote).MergedMap?;
    GetExtensional(out, MergeDocuments(base, local, remote).document);
  }

  method MergeNode(base: Slot, local: Slot, remote: Slot) returns (merged: Slot, conflict: bool)
    ensures conflict <==> MergeSlot(base, local, remote).Conflict?
    ensures !conflict ==> Merged(merged) == MergeSlot(base, local, remote)
    decreases if local.Present? then 1 else 0, if local.Present? then local.node else Scalar(""), 1
  {
    if local == remote {
      return local, false;
    }
    if base == local {
      return remote, false;
    }
    if base == remote {
      return local, false;
    }
    if IsMap(local) && IsMap(remote) && MapBase(base) {
      assert Object(local.node.fields) == local.node;
      var document, clash := MergeMaps(BaseFields(base), local.node.fields, remote.node.fields);
      return Present(Object(document)), clash;
    }
    return Absent, true;
  }
}
