// internal/portableconfig/policy.go: what of a configuration document is shared
// between computers, and how a shared document is put back into a local one.
module PortableConfig {
  import opened Strings
  import opened Documents
  import opened DocumentLeaves
  import opened PathResolver

  // The pattern lists of a policy, as the sets of key paths that they match.
  datatype Policy = Policy(
    portable: string -> bool,
    sensitive: string -> bool,
    machineLocal: string -> bool,
    pathFields: string -> bool)

  function KeyPath(segments: Segments): string {
    Join(segments, '.')
  }

  predicate IsPortable(policy: Policy, segments: Segments) {
    var path := KeyPath(segments);
    (policy.portable)(path) && !(policy.sensitive)(path) && !(policy.machineLocal)(path)
  }

  predicate IsPathField(policy: Policy, segments: Segments) {
    (policy.pathFields)(KeyPath(segments))
  }

  // ---- Path values ----

  function TokenizeText(text: string, host: Host): Option<string> {
    var tokenized := TokenizeHome(text, host);
    if tokenized.Some? then tokenized
    else if LooksAbsolute(text, host.windows) then None
    else Some(text)
  }

  // Lists are tokenized item by item and dropped with their first unusable item.
  function TokenizeValue(value: Node, host: Host): Option<Node>
    decreases value, 0
  {
    match value
    case Text(text) =>
      var tokenized := TokenizeText(text, host);
      if tokenized.Some? then Some(Text(tokenized.value)) else None
    case List(items) =>
      var tokenized := TokenizeItems(items, host);
      if tokenized.Some? then Some(List(tokenized.value)) else None
    case _ => Some(value)
  }

  function TokenizeItems(items: seq<Node>, host: Host): (out: Option<seq<Node>>)
    decreases items, 1
    ensures out.Some? ==> |out.value| == |items|
  {
    if items == [] then Some([])
    else
      var front := TokenizeItems(items[..|items| - 1], host);
      if front.None? then None
      else
        var last := TokenizeValue(items[|items| - 1], host);
        if last.None? then None else Some(front.value + [last.value])
  }

  // An expansion fails for an unusable token and yields nothing for a foreign
  // absolute path.
  datatype Expansion<T> = Expanded(value: T) | Unusable | Failed

  function ExpandText(text: string, host: Host): Expansion<string> {
    match ExpandHomeToken(text, host)
    case None => Failed
    case Some(expanded) =>
      if expanded == text && LooksAbsolute(text, host.windows) then Unusable else Expanded(expanded)
  }

  function ExpandValue(value: Node, host: Host): Expansion<Node>
    decreases value, 0
  {
    match value
    case Text(text) =>
      (match ExpandText(text, host)
       case Expanded(expanded) => Expanded(Text(expanded))
       case Unusable => Unusable
       case Failed => Failed)
    case List(items) =>
      (match ExpandItems(items, host)
       case Expanded(expanded) => Expanded(List(expanded))
       case Unusable => Unusable
       case Failed => Failed)
    case _ => Expanded(value)
  }

  function ExpandItems(items: seq<Node>, host: Host): (out: Expansion<seq<Node>>)
    decreases items, 1
    ensures out.Expanded? ==> |out.value| == |items|
  {
    if items == [] then Expanded([])
    else
      match ExpandItems(items[..|items| - 1], host)
      case Unusable => Unusable
      case Failed => Failed
      case Expanded(front) =>
        match ExpandValue(items[|items| - 1], host)
        case Unusable => Unusable
        case Failed => Failed
        case Expanded(last) => Expanded(front + [last])
  }

  method TokenizePathValue(value: Node, host: Host) returns (tokenized: Option<Node>)
    ensures tokenized == TokenizeValue(value, host)
    decreases value
  {
    match value
    case Text(text) =>
      var token := TokenizeHome(text, host);
      if token.Some? {
        return Some(Text(token.value));
      }
      if LooksAbsolute(text, host.windows) {
        return None;
      }
      tokenized := Some(value);
    case List(items) =>
      var out := [];
      for i := 0 to |items|
        invariant TokenizeItems(items[..i], host) == Some(out)
      {
        assert items[..i + 1][..i] == items[..i];
        assert items[i] < value;
        var item := TokenizePathValue(items[i], host);
        if item.None? {
          NoItemsFromPrefix(items, i + 1, host);
          return None;
        }
        out := out + [item.value];
      }
      assert items[..|items|] == items;
      tokenized := Some(List(out));
    case _ =>
      tokenized := Some(value);
  }

  lemma {:induction false} NoItemsFromPrefix(items: seq<Node>, count: nat, host: Host)
    requires count <= |items| && TokenizeItems(items[..count], host) == None
    ensures TokenizeItems(items, host) == None
    decreases |items|
  {
    if count < |items| {
      var front := items[..|items| - 1];
      assert front[..count] == items[..count];
      NoItemsFromPrefix(front, count, host);
    } else {
      assert items[..count] == items;
    }
  }

  method ExpandPathValue(value: Node, host: Host) returns (expansion: Expansion<Node>)
    ensures expansion == ExpandValue(value, host)
    decreases value
  {
    match value
    case Text(text) =>
      var expanded := ExpandHomeToken(text, host);
      if expanded.None? {
        return Failed;
      }
      if expanded.value == text && LooksAbsolute(text, host.windows) {
        return Unusable;
      }
      expansion := Expanded(Text(expanded.value));
    case List(items) =>
      var out := [];
      for i := 0 to |items|
        invariant ExpandItems(items[..i], host) == Expanded(out)
      {
        assert items[..i + 1][..i] == items[..i];
        assert items[i] < value;
        var item := ExpandPathValue(items[i], host);
        if !item.Expanded? {
          StoppedByPrefix(items, i + 1, host);
          return item;
        }
        out := out + [item.value];
      }
      assert items[..|items|] == items;
      expansion := Expanded(List(out));
    case _ =>
      expansion := Expanded(value);
  }

  lemma {:induction false} StoppedByPrefix(items: seq<Node>, count: nat, host: Host)
    requires count <= |items| && !ExpandItems(items[..count], host).Expanded?
    ensures ExpandItems(items, host) == ExpandItems(items[..count], host)
    decreases |items|
  {
    if count < |items| {
      var front := items[..|items| - 1];
      assert front[..count] == items[..count];
      StoppedByPrefix(front, count, host);
    } else {
      assert items[..count] == items;
    }
  }

  // ---- What projecting and restoring do to each leaf ----

  // The shared form of a leaf, if it has one.
  function Shared(policy: Policy, host: Host, segments: Segments, leaf: Option<Node>): Option<Node> {
    if leaf.None? || !IsPortable(policy, segments) then None
    else if IsPathField(policy, segments) then TokenizeValue(leaf.value, host)
    else leaf
  }

  ghost predicate Projects(policy: Policy, host: Host, document: Document, projected: Document) {
    forall path :: LeafAt(projected, path) == Shared(policy, host, path, LeafAt(document, path))
  }

  // The local form of a shared leaf; empty objects are never restored.
  function LocalForm(policy: Policy, host: Host, segments: Segments, leaf: Option<Node>): Expansion<Node> {
    if leaf.None? || !IsPortable(policy, segments) || leaf.value == Object(map[]) then Unusable
    else if IsPathField(policy, segments) then ExpandValue(leaf.value, host)
    else Expanded(leaf.value)
  }

  predicate Written(policy: Policy, host: Host, remote: Document, segments: Segments) {
    LocalForm(policy, host, segments, LeafAt(remote, segments)).Expanded?
  }

  predicate Withdrawn(policy: Policy, base: Document, remote: Document, segments: Segments) {
    LeafAt(base, segments).Some? && LeafAt(remote, segments).None? && IsPortable(policy, segments)
  }

  ghost predicate Overwrites(policy: Policy, host: Host, remote: Document, path: Segments) {
    exists segments :: Written(policy, host, remote, segments) && Related(path, segments)
  }

  ghost predicate Deletes(policy: Policy, base: Document, remote: Document, path: Segments, leaf: Option<Node>) {
    exists segments :: Withdrawn(policy, base, remote, segments) && Removes(segments, path, leaf)
  }

  // A leaf of the restored document: the remote one in local form; nothing where
  // a remote leaf takes its place or a withdrawn one is removed; else the local one.
  ghost function RestoredLeaf(policy: Policy, host: Host, local: Document, base: Document, remote: Document,
                              path: Segments): Option<Node> {
    if Written(policy, host, remote, path) then Some(LocalForm(policy, host, path, LeafAt(remote, path)).value)
    else if Overwrites(policy, host, remote, path) then None
    else if Deletes(policy, base, remote, path, LeafAt(local, path)) then None
    else LeafAt(local, path)
  }

  ghost predicate Restores(policy: Policy, host: Host, local: Document, base: Document, remote: Document,
                           restored: Document) {
    forall path :: LeafAt(restored, path) == RestoredLeaf(policy, host, local, base, remote, path)
  }

  ghost predicate RestoreFails(policy: Policy, host: Host, remote: Document) {
    exists path :: LocalForm(policy, host, path, LeafAt(remote, path)).Failed?
  }

  // Both relations determine their result, so the order in which the loops visit
  // the leaves cannot show.
  lemma ProjectionUnique(policy: Policy, host: Host, document: Document, one: Document, other: Document)
    requires Projects(policy, host, document, one) && Projects(policy, host, document, other)
    ensures one == other
  {
    LeavesDetermine(one, other);
  }

  lemma RestorationUnique(policy: Policy, host: Host, local: Document, base: Document, remote: Document,
                          one: Document, other: Document)
    requires Restores(policy, host, local, base, remote, one) && Restores(policy, host, local, base, remote, other)
    ensures one == other
  {
    LeavesDetermine(one, other);
  }

  // ---- The loops of the source ----

  lemma SharedIsLeaf(policy: Policy, host: Host, segments: Segments, leaf: Option<Node>)
    requires leaf.Some? ==> IsLeaf(leaf.value)
    ensures Shared(policy, host, segments, leaf).Some? ==> IsLeaf(Shared(policy, host, segments, leaf).value)
  {
  }

  lemma LocalFormIsLeaf(policy: Policy, host: Host, segments: Segments, leaf: Option<Node>)
    requires leaf.Some? ==> IsLeaf(leaf.value)
    ensures LocalForm(policy, host, segments, leaf).Expanded? ==> IsLeaf(LocalForm(policy, host, segments, leaf).value)
  {
  }

  lemma {:induction false} LeafIsLeaf(document: Document, path: Segments)
    ensures LeafAt(document, path).Some? ==> path != [] && IsLeaf(LeafAt(document, path).value)
    decreases |path|
  {
    if path != [] && path[0] in document && path[1..] != [] && document[path[0]].Object? {
      LeafIsLeaf(document[path[0]].fields, path[1..]);
    }
  }

  method ProjectDocument(policy: Policy, document: Document, host: Host) returns (projected: Document)
    ensures Projects(policy, host, document, projected)
  {
    projected := map[];
    var fields := Flatten(document);
    for i := 0 to |fields|
      invariant forall path :: LeafAt(projected, path) ==
                  if Listed(fields[..i], path) then Shared(policy, host, path, LeafAt(document, path)) else None
    {
      var item := fields[i];
      ghost var before := projected;
      LeafIsLeaf(document, item.segments);
      SharedIsLeaf(policy, host, item.segments, Some(item.value));
      if IsPortable(policy, item.segments) {
        var value := Some(item.value);
        if IsPathField(policy, item.segments) {
          value := TokenizePathValue(item.value, host);
        }
        if value.Some? {
          projected := SetAt(projected, item.segments, value.value);
        }
      }
      forall path: Segments
        ensures LeafAt(projected, path) ==
                if Listed(fields[..i + 1], path) then Shared(policy, host, path, LeafAt(document, path)) else None
      {
        ProjectStep(policy, host, document, fields, i, before, projected, path);
      }
    }
    assert fields[..|fields|] == fields;
  }

  lemma ListedNext(fields: seq<Field>, i: nat, path: Segments)
    requires i < |fields|
    ensures Listed(fields[..i + 1], path) <==> Listed(fields[..i], path) || path == fields[i].segments
  {
    assert fields[..i + 1] == fields[..i] + [fields[i]];
    ListedInSum(fields[..i], [fields[i]], path);
    assert Listed([fields[i]], path) <==> path == fields[i].segments by {
      assert [fields[i]][0].segments == fields[i].segments;
    }
  }

  lemma ProjectStep(policy: Policy, host: Host, document: Document, fields: seq<Field>, i: nat,
                    before: Document, after: Document, path: Segments)
    requires Flattens(document, fields) && i < |fields|
    requires LeafAt(before, path) == if Listed(fields[..i], path)
             then Shared(policy, host, path, LeafAt(document, path)) else None
    requires var value := Shared(policy, host, fields[i].segments, Some(fields[i].value));
             after == if value.Some? && fields[i].segments != [] then SetAt(before, fields[i].segments, value.value)
                 else before
    ensures LeafAt(after, path) == if Listed(fields[..i + 1], path)
            then Shared(policy, host, path, LeafAt(document, path)) else None
  {
    var item := fields[i];
    var value := Shared(policy, host, item.segments, Some(item.value));
    ListedNext(fields, i, path);
    LeafIsLeaf(document, item.segments);
    SharedIsLeaf(policy, host, item.segments, Some(item.value));
    if value.Some? {
      SetAtLeaf(before, item.segments, value.value, path);
    }
    if Listed(fields[..i], path) {
      var j :| 0 <= j < i && fields[j].segments == path;
      if Related(path, item.segments) {
        LeavesUnrelated(document, path, item.segments);
      }
    }
  }

  // The first loop of restoreDocument: shared leaves that the remote withdrew.
  ghost predicate DeletesListed(policy: Policy, base: Document, remote: Document, fields: seq<Field>, path: Segments,
                                leaf: Option<Node>) {
    exists segments :: Listed(fields, segments) && Withdrawn(policy, base, remote, segments)
        && Removes(segments, path, leaf)
  }

  method WithdrawFields(policy: Policy, local: Document, base: Document, remote: Document) returns (pruned: Document)
    ensures forall path :: LeafAt(pruned, path) ==
              if Deletes(policy, base, remote, path, LeafAt(local, path)) then None else LeafAt(local, path)
  {
    pruned := local;
    var remoteFields := Flatten(remote);
    var fields := Flatten(base);
    for i := 0 to |fields|
      invariant forall path :: LeafAt(pruned, path) ==
                  if DeletesListed(policy, base, remote, fields[..i], path, LeafAt(local, path)) then None
                      else LeafAt(local, path)
    {
      var item := fields[i];
      ghost var before := pruned;
      LeafIsLeaf(base, item.segments);
      assert Listed(remoteFields, item.segments) <==> LeafAt(remote, item.segments).Some?;
      if !Listed(remoteFields, item.segments) && IsPortable(policy, item.segments) {
        pruned := DeleteAt(pruned, item.segments).0;
      }
      forall path: Segments
        ensures LeafAt(pruned, path) ==
                if DeletesListed(policy, base, remote, fields[..i + 1], path, LeafAt(local, path)) then None
                    else LeafAt(local, path)
      {
        WithdrawStep(policy, local, base, remote, fields, i, before, pruned, path);
      }
    }
    assert fields[..|fields|] == fields;
    forall path: Segments
      ensures Deletes(policy, base, remote, path, LeafAt(local, path))
          <==> DeletesListed(policy, base, remote, fields, path, LeafAt(local, path))
    {
    }
  }

  lemma WithdrawStep(policy: Policy, local: Document, base: Document, remote: Document, fields: seq<Field>, i: nat,
                     before: Document, after: Document, path: Segments)
    requires i < |fields| && fields[i].segments != [] && LeafAt(base, fields[i].segments) == Some(fields[i].value)
    requires LeafAt(before, path) ==
             if DeletesListed(policy, base, remote, fields[..i], path, LeafAt(local, path)) then None
                 else LeafAt(local, path)
    requires after == if Withdrawn(policy, base, remote, fields[i].segments)
             then DeleteAt(before, fields[i].segments).0 else before
    ensures LeafAt(after, path) ==
            if DeletesListed(policy, base, remote, fields[..i + 1], path, LeafAt(local, path)) then None
                else LeafAt(local, path)
  {
    var s := fields[i].segments;
    forall segments: Segments
      ensures Listed(fields[..i + 1], segments) <==> Listed(fields[..i], segments) || segments == s
    {
      ListedNext(fields, i, segments);
    }
    DeleteAtLeaf(before, s, path);
    var leaf := LeafAt(local, path);
    assert DeletesListed(policy, base, remote, fields[..i + 1], path, leaf)
      <==> DeletesListed(policy, base, remote, fields[..i], path, leaf)
           || (Withdrawn(policy, base, remote, s) && Removes(s, path, leaf)) by {
      if Withdrawn(policy, base, remote, s) && Removes(s, path, leaf) {
        assert Listed(fields[..i + 1], s);
      }
    }
  }

  // The second loop: the listed remote leaves are written over the rest.
  ghost predicate OverwritesListed(policy: Policy, host: Host, remote: Document, fields: seq<Field>, path: Segments) {
    exists segments :: Listed(fields, segments) && Written(policy, host, remote, segments) && Related(path, segments)
  }

  ghost function WrittenLeaf(policy: Policy, host: Host, remote: Document, fields: seq<Field>, leaf: Option<Node>,
                             path: Segments): Option<Node> {
    if Listed(fields, path) && Written(policy, host, remote, path)
        then Some(LocalForm(policy, host, path, LeafAt(remote, path)).value)
    else if OverwritesListed(policy, host, remote, fields, path) then None
    else leaf
  }

  lemma OverwritesNext(policy: Policy, host: Host, remote: Document, fields: seq<Field>, i: nat, path: Segments)
    requires i < |fields|
    ensures OverwritesListed(policy, host, remote, fields[..i + 1], path)
       <==> OverwritesListed(policy, host, remote, fields[..i], path)
            || (Written(policy, host, remote, fields[i].segments) && Related(path, fields[i].segments))
  {
    var s := fields[i].segments;
    forall segments: Segments
      ensures Listed(fields[..i + 1], segments) <==> Listed(fields[..i], segments) || segments == s
    {
      ListedNext(fields, i, segments);
    }
    if Written(policy, host, remote, s) && Related(path, s) {
      assert Listed(fields[..i + 1], s);
    }
  }

  lemma RestoreStep(policy: Policy, host: Host, remote: Document, fields: seq<Field>, i: nat,
                    before: Document, after: Document, leaf: Option<Node>, path: Segments)
    requires Flattens(remote, fields) && i < |fields| && fields[i].segments != []
    requires LeafAt(before, path) == WrittenLeaf(policy, host, remote, fields[..i], leaf, path)
    requires var value := LocalForm(policy, host, fields[i].segments, Some(fields[i].value));
             after == if value.Expanded? then SetAt(before, fields[i].segments, value.value) else before
    ensures LeafAt(after, path) == WrittenLeaf(policy, host, remote, fields[..i + 1], leaf, path)
  {
    var item := fields[i];
    var value := LocalForm(policy, host, item.segments, Some(item.value));
    ListedNext(fields, i, path);
    OverwritesNext(policy, host, remote, fields, i, path);
    LeafIsLeaf(remote, item.segments);
    LocalFormIsLeaf(policy, host, item.segments, Some(item.value));
    if value.Expanded? {
      SetAtLeaf(before, item.segments, value.value, path);
    }
    if Listed(fields[..i], path) {
      var j :| 0 <= j < i && fields[j].segments == path;
      if Related(path, item.segments) {
        LeavesUnrelated(remote, path, item.segments);
      }
    }
  }

  method RestoreDocument(policy: Policy, local: Document, base: Document, remote: Document, host: Host)
    returns (restored: Option<Document>)
    ensures restored.None? <==> RestoreFails(policy, host, remote)
    ensures restored.Some? ==> Restores(policy, host, local, base, remote, restored.value)
  {
    var pruned := WithdrawFields(policy, local, base, remote);
    var fields := Flatten(remote);
    var out := pruned;
    for i := 0 to |fields|
      invariant forall j :: 0 <= j < i ==> !LocalForm(policy, host, fields[j].segments, Some(fields[j].value)).Failed?
      invariant forall path :: LeafAt(out, path) == WrittenLeaf(policy, host, remote, fields[..i],
                                                                LeafAt(pruned, path), path)
    {
      var item := fields[i];
      ghost var before := out;
      LeafIsLeaf(remote, item.segments);
      LocalFormIsLeaf(policy, host, item.segments, Some(item.value));
      if IsPortable(policy, item.segments) && item.value != Object(map[]) {
        var value := Expanded(item.value);
        if IsPathField(policy, item.segments) {
          value := ExpandPathValue(item.value, host);
          if value.Failed? {
            assert LocalForm(policy, host, item.segments, LeafAt(remote, item.segments)).Failed?;
            return None;
          }
        }
        if value.Expanded? {
          out := SetAt(out, item.segments, value.value);
        }
      }
      forall path: Segments
        ensures LeafAt(out, path) == WrittenLeaf(policy, host, remote, fields[..i + 1], LeafAt(pruned, path), path)
      {
        RestoreStep(policy, host, remote, fields, i, before, out, LeafAt(pruned, path), path);
      }
    }
    assert fields[..|fields|] == fields;
    restored := Some(out);
    forall path: Segments
      ensures LeafAt(out, path) == RestoredLeaf(policy, host, local, base, remote, path)
      ensures !LocalForm(policy, host, path, LeafAt(remote, path)).Failed?
    {
      assert Listed(fields, path) <==> LeafAt(remote, path).Some?;
      assert OverwritesListed(policy, host, remote, fields, path) <==> Overwrites(policy, host, remote, path);
    }
  }
}
