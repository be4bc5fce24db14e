// internal/portableconfig/policy.go: a document as its leaves, and the edits of
// one leaf at a time.
module DocumentLeaves {
  import opened Strings
  import opened Documents

  type Segments = seq<string>

  // A leaf is anything but a non-empty object.
  predicate IsLeaf(node: Node) {
    node.Object? ==> node.fields == map[]
  }

  function LeafUnder(node: Node, path: Segments): Option<Node>
    decreases |path|, 1
  {
    if path == [] then if IsLeaf(node) then Some(node) else None
    else if node.Object? then LeafAt(node.fields, path)
    else None
  }

  function LeafAt(document: Document, path: Segments): Option<Node>
    decreases |path|, 0
  {
    if path != [] && path[0] in document then LeafUnder(document[path[0]], path[1..]) else None
  }

  predicate Related(left: Segments, right: Segments) {
    left <= right || right <= left
  }

  lemma LeafUnderKey(document: Document, key: string, rest: Segments)
    ensures LeafAt(document, [key] + rest) == if key in document then LeafUnder(document[key], rest) else None
  {
    assert ([key] + rest)[1..] == rest;
  }

  lemma RelatedTails(left: Segments, right: Segments)
    requires left != [] && right != [] && left[0] == right[0]
    ensures Related(left, right) <==> Related(left[1..], right[1..])
    ensures left == right <==> left[1..] == right[1..]
  {
    assert left == [left[0]] + left[1..] && right == [right[0]] + right[1..];
  }

  lemma NothingUnderLeaf(node: Node, path: Segments)
    requires IsLeaf(node)
    ensures LeafUnder(node, path) == if path == [] then Some(node) else None
  {
  }

  // The leaves of a document never lie on one another's paths.
  lemma {:induction false} LeavesUnrelated(document: Document, left: Segments, right: Segments)
    requires LeafAt(document, left).Some? && LeafAt(document, right).Some? && Related(left, right)
    ensures left == right
    decreases |left|
  {
    var node := document[left[0]];
    RelatedTails(left, right);
    if left[1..] != [] && right[1..] != [] {
      LeavesUnrelated(node.fields, left[1..], right[1..]);
    } else {
      NothingUnderLeaf(node, left[1..]);
      NothingUnderLeaf(node, right[1..]);
    }
  }

  lemma {:induction false} HasLeaf(node: Node) returns (path: Segments)
    ensures LeafUnder(node, path).Some?
  {
    if IsLeaf(node) {
      return [];
    }
    var key :| key in node.fields;
    var rest := HasLeaf(node.fields[key]);
    path := [key] + rest;
    LeafUnderKey(node.fields, key, rest);
  }

  lemma {:induction false} NodesAgree(left: Node, right: Node)
    requires forall path :: LeafUnder(left, path) == LeafUnder(right, path)
    ensures left == right
    decreases left, 1
  {
    assert LeafUnder(left, []) == LeafUnder(right, []);
    if !IsLeaf(left) {
      forall path | path != []
        ensures LeafAt(left.fields, path) == LeafAt(right.fields, path)
      {
        assert LeafUnder(left, path) == LeafUnder(right, path);
      }
      LeavesDetermine(left.fields, right.fields);
    }
  }

  // A document is the document of its leaves.
  lemma {:induction false} LeavesDetermine(left: Document, right: Document)
    requires forall path :: LeafAt(left, path) == LeafAt(right, path)
    ensures left == right
    decreases Object(left), 0
  {
    forall key | key in left.Keys + right.Keys
      ensures key in left && key in right && left[key] == right[key]
    {
      var rest := HasLeaf(if key in left then left[key] else right[key]);
      LeafUnderKey(left, key, rest);
      LeafUnderKey(right, key, rest);
      forall path: Segments
        ensures LeafUnder(left[key], path) == LeafUnder(right[key], path)
      {
        LeafUnderKey(left, key, path);
        LeafUnderKey(right, key, path);
      }
      assert left[key] < Object(left);
      NodesAgree(left[key], right[key]);
    }
    assert left.Keys == right.Keys;
  }

  // ---- One edit ----

  // setAt: replaces whatever is in the way by objects.
  function SetAt(document: Document, segments: Segments, value: Node): Document
    requires segments != []
    decreases |segments|
  {
    var key := segments[0];
    if |segments| == 1 then document[key := value]
    else
      var next := if key in document && document[key].Object? then document[key].fields else map[];
      document[key := Object(SetAt(next, segments[1..], value))]
  }

  // deleteAt: also removes the objects that the removal leaves empty. The flag
  // reports an emptied object to the caller.
  function DeleteAt(document: Document, segments: Segments): (Document, bool)
    requires segments != []
    decreases |segments|
  {
    var key := segments[0];
    if |segments| == 1 then (document - {key}, document - {key} == map[])
    else if key in document && document[key].Object? then
      var (child, empty) := DeleteAt(document[key].fields, segments[1..]);
      var out := if empty then document - {key} else document[key := Object(child)];
      (out, out == map[])
    else (document, false)
  }

  // Setting a leaf puts it there, clears its path above and below, and touches
  // no other leaf.
  lemma {:induction false} SetAtLeaf(document: Document, segments: Segments, value: Node, path: Segments)
    requires segments != [] && IsLeaf(value)
    ensures LeafAt(SetAt(document, segments, value), path) ==
            if path == segments then Some(value) else if Related(path, segments) then None else LeafAt(document, path)
    decreases |segments|
  {
    var key := segments[0];
    if path != [] && path[0] == key {
      RelatedTails(path, segments);
      if |segments| > 1 {
        var next := if key in document && document[key].Object? then document[key].fields else map[];
        SetAtLeaf(next, segments[1..], value, path[1..]);
        SetAtNonempty(next, segments[1..], value);
      } else {
        NothingUnderLeaf(value, path[1..]);
      }
    }
  }

  lemma SetAtNonempty(document: Document, segments: Segments, value: Node)
    requires segments != []
    ensures SetAt(document, segments, value) != map[]
  {
    assert segments[0] in SetAt(document, segments, value);
  }

  // Deleting removes the leaves at and under its path, and an empty object that
  // the path would have gone through just before its end.
  predicate Removes(segments: Segments, path: Segments, leaf: Option<Node>) {
    segments <= path || (|segments| == |path| + 1 && path <= segments && leaf == Some(Object(map[])))
  }

  lemma {:induction false} DeleteAtLeaf(document: Document, segments: Segments, path: Segments)
    requires segments != []
    ensures LeafAt(DeleteAt(document, segments).0, path) ==
            if Removes(segments, path, LeafAt(document, path)) then None else LeafAt(document, path)
    ensures DeleteAt(document, segments).1 ==> DeleteAt(document, segments).0 == map[]
    ensures DeleteAt(document, segments).0 == map[] ==> DeleteAt(document, segments).1 || document == map[]
    decreases |segments|
  {
    var key := segments[0];
    if path != [] {
      assert path == [path[0]] + path[1..] && segments == [key] + segments[1..];
    }
    if |segments| > 1 && key in document && document[key].Object? {
      DeleteAtLeaf(document[key].fields, segments[1..], if path == [] then [] else path[1..]);
    }
  }

  // ---- Flattening ----

  datatype Field = Field(segments: Segments, value: Node)

  // The fields list every leaf exactly once, in no particular order.
  ghost predicate Flattens(document: Document, fields: seq<Field>) {
    && (forall i :: 0 <= i < |fields| ==> LeafAt(document, fields[i].segments) == Some(fields[i].value))
    && (forall path :: LeafAt(document, path).Some? ==> Listed(fields, path))
    && (forall i, j :: 0 <= i < j < |fields| ==> fields[i].segments != fields[j].segments)
  }

  predicate Listed(fields: seq<Field>, path: Segments) {
    exists i :: 0 <= i < |fields| && fields[i].segments == path
  }

  lemma ListedInSum(left: seq<Field>, right: seq<Field>, path: Segments)
    ensures Listed(left + right, path) <==> Listed(left, path) || Listed(right, path)
  {
    if Listed(left + right, path) {
      var i :| 0 <= i < |left + right| && (left + right)[i].segments == path;
      assert i < |left| ==> left[i].segments == path;
      assert i >= |left| ==> right[i - |left|].segments == path;
    }
    if i :| 0 <= i < |left| && left[i].segments == path {
      assert (left + right)[i].segments == path;
    }
    if i :| 0 <= i < |right| && right[i].segments == path {
      assert (left + right)[|left| + i].segments == path;
    }
  }

  ghost predicate FlattensUnder(prefix: Segments, node: Node, fields: seq<Field>) {
    && (forall i :: 0 <= i < |fields| ==>
          prefix <= fields[i].segments && LeafUnder(node, fields[i].segments[|prefix|..]) == Some(fields[i].value))
    && (forall path :: LeafUnder(node, path).Some? ==> Listed(fields, prefix + path))
    && (forall i, j :: 0 <= i < j < |fields| ==> fields[i].segments != fields[j].segments)
  }

  // What has been listed when the fields of some keys are done.
  ghost predicate FlattensKeys(prefix: Segments, document: Document, done: set<string>, fields: seq<Field>) {
    && (forall i :: 0 <= i < |fields| ==>
          prefix < fields[i].segments && fields[i].segments[|prefix|] in done &&
          LeafAt(document, fields[i].segments[|prefix|..]) == Some(fields[i].value))
    && (forall path :: LeafAt(document, path).Some? && path[0] in done ==> Listed(fields, prefix + path))
    && (forall i, j :: 0 <= i < j < |fields| ==> fields[i].segments != fields[j].segments)
  }

  lemma AddKey(prefix: Segments, document: Document, done: set<string>, fields: seq<Field>, key: string,
               more: seq<Field>)
    requires FlattensKeys(prefix, document, done, fields) && key in document && key !in done
    requires FlattensUnder(prefix + [key], document[key], more)
    ensures FlattensKeys(prefix, document, done + {key}, fields + more)
  {
    forall i | 0 <= i < |more|
      ensures prefix < more[i].segments && more[i].segments[|prefix|] == key
              && LeafAt(document, more[i].segments[|prefix|..]) == Some(more[i].value)
    {
      var s := more[i].segments;
      assert s == (prefix + [key]) + s[|prefix| + 1..];
      assert s[|prefix|..] == [key] + s[|prefix| + 1..];
      LeafUnderKey(document, key, s[|prefix| + 1..]);
    }
    forall path | LeafAt(document, path).Some? && path[0] in done + {key}
      ensures Listed(fields + more, prefix + path)
    {
      ListedInSum(fields, more, prefix + path);
      if path[0] == key {
        LeafUnderKey(document, key, path[1..]);
        assert prefix + path == (prefix + [key]) + path[1..];
      }
    }
  }

  method FlattenValue(prefix: Segments, node: Node) returns (fields: seq<Field>)
    ensures FlattensUnder(prefix, node, fields)
    decreases node, 1
  {
    if !node.Object? || node.fields == map[] {
      fields := [Field(prefix, node)];
      assert fields[0].segments[|prefix|..] == [];
      assert prefix + [] == prefix;
      assert Listed(fields, prefix);
      return;
    }
    assert Object(node.fields) == node;
    fields := FlattenFields(prefix, node.fields);
    forall path | LeafUnder(node, path).Some?
      ensures Listed(fields, prefix + path)
    {
      assert LeafAt(node.fields, path).Some?;
    }
  }

  // The loop over an object's keys, in the order the map yields them.
  method FlattenFields(prefix: Segments, document: Document) returns (fields: seq<Field>)
    ensures FlattensKeys(prefix, document, document.Keys, fields)
    decreases Object(document), 0
  {
    fields := [];
    var keys := document.Keys;
    ghost var done: set<string> := {};
    while keys != {}
      invariant keys !! done && keys + done == document.Keys
      invariant FlattensKeys(prefix, document, done, fields)
      decreases keys
    {
      var key :| key in keys;
      assert document[key] < Object(document);
      var more := FlattenValue(prefix + [key], document[key]);
      AddKey(prefix, document, done, fields, key, more);
      fields := fields + more;
      keys := keys - {key};
      done := done + {key};
    }
  }

  method Flatten(document: Document) returns (fields: seq<Field>)
    ensures Flattens(document, fields)
  {
    fields := FlattenFields([], document);
    forall i | 0 <= i < |fields|
      ensures LeafAt(document, fields[i].segments) == Some(fields[i].value)
    {
      assert fields[i].segments[0..] == fields[i].segments;
    }
    forall path | LeafAt(document, path).Some?
      ensures Listed(fields, path)
    {
      assert [] + path == path;
    }
  }
}
