// The two laws of sharing a configuration document: what was received is what
// is shared next, and sharing without receiving changes nothing.
module PortableLens {
  import opened Strings
  import opened Documents
  import opened DocumentLeaves
  import opened PathResolver
  import opened PortableConfig

  // ---- Values ----

  // Home tokens are written with slashes.
  predicate CanonicalValue(value: Node)
    decreases value
  {
    match value
    case Text(text) => IsToken(text) ==> '\\' !in text
    case List(items) => forall i :: 0 <= i < |items| ==> CanonicalValue(items[i])
    case _ => true
  }

  // No text is a literal home token, and home paths are written natively.
  predicate FaithfulText(text: string, host: Host) {
    !IsToken(text) && (TokenizeHome(text, host).Some? ==> SpelledNatively(text, host))
  }

  predicate FaithfulValue(value: Node, host: Host)
    decreases value
  {
    match value
    case Text(text) => FaithfulText(text, host)
    case List(items) => forall i :: 0 <= i < |items| ==> FaithfulValue(items[i], host)
    case _ => true
  }

  // A received text is usable here unless it is a broken token, and is shared
  // again as it was received exactly when it is canonical.
  lemma TextPutGet(text: string, host: Host)
    requires TokenizeText(text, host) == Some(text)
    ensures !ExpandText(text, host).Unusable?
    ensures ExpandText(text, host).Expanded? ==>
              (TokenizeText(ExpandText(text, host).value, host) == Some(text) <==> (IsToken(text) ==> '\\' !in text))
  {
    TokensAreNotPaths(text, host);
    if IsToken(text) && ExpandText(text, host).Expanded? {
      ExpandedTokenizes(text, host);
      SpelledOnPosix(text);
    }
  }

  // A shared text comes back as it was exactly when it is faithful.
  lemma TextGetPut(text: string, host: Host)
    requires TokenizeText(text, host).Some?
    ensures !ExpandText(TokenizeText(text, host).value, host).Unusable?
    ensures ExpandText(TokenizeText(text, host).value, host) == Expanded(text) <==> FaithfulText(text, host)
  {
    TokensAreNotPaths(text, host);
    if TokenizeHome(text, host).Some? {
      var token := TokenizeHome(text, host).value;
      TokensAreNotPaths(token, host);
      RoundTripExactly(text, host);
    } else if IsToken(text) && ExpandHomeToken(text, host).Some? {
      ExpandedTokenizes(text, host);
    }
  }

  lemma {:induction false} ValuePutGet(value: Node, host: Host)
    requires TokenizeValue(value, host) == Some(value)
    ensures !ExpandValue(value, host).Unusable?
    ensures ExpandValue(value, host).Expanded? ==>
              (TokenizeValue(ExpandValue(value, host).value, host) == Some(value) <==> CanonicalValue(value))
    decreases value, 0
  {
    match value
    case Text(text) =>
      TextPutGet(text, host);
    case List(items) =>
      ItemsPutGet(items, host);
    case _ =>
  }

  lemma {:induction false} ItemsPutGet(items: seq<Node>, host: Host)
    requires TokenizeItems(items, host) == Some(items)
    ensures !ExpandItems(items, host).Unusable?
    ensures ExpandItems(items, host).Expanded? ==>
              (TokenizeItems(ExpandItems(items, host).value, host) == Some(items)
               <==> forall i :: 0 <= i < |items| ==> CanonicalValue(items[i]))
    decreases items, 1
  {
    if items != [] {
      var front, last := items[..|items| - 1], items[|items| - 1];
      assert items == front + [last];
      ItemsPutGet(front, host);
      ValuePutGet(last, host);
      if ExpandItems(items, host).Expanded? {
        var expanded := ExpandItems(items, host).value;
        assert expanded[..|expanded| - 1] == ExpandItems(front, host).value;
        assert expanded[|expanded| - 1] == ExpandValue(last, host).value;
      }
    }
  }

  lemma {:induction false} ValueGetPut(value: Node, host: Host)
    requires TokenizeValue(value, host).Some?
    ensures !ExpandValue(TokenizeValue(value, host).value, host).Unusable?
    ensures ExpandValue(TokenizeValue(value, host).value, host) == Expanded(value) <==> FaithfulValue(value, host)
    decreases value, 0
  {
    match value
    case Text(text) =>
      TextGetPut(text, host);
    case List(items) =>
      ItemsGetPut(items, host);
    case _ =>
  }

  lemma {:induction false} ItemsGetPut(items: seq<Node>, host: Host)
    requires TokenizeItems(items, host).Some?
    ensures !ExpandItems(TokenizeItems(items, host).value, host).Unusable?
    ensures ExpandItems(TokenizeItems(items, host).value, host) == Expanded(items)
       <==> forall i :: 0 <= i < |items| ==> FaithfulValue(items[i], host)
    decreases items, 1
  {
    if items != [] {
      var front, last := items[..|items| - 1], items[|items| - 1];
      assert items == front + [last];
      ItemsGetPut(front, host);
      ValueGetPut(last, host);
      var tokenized := TokenizeItems(items, host).value;
      assert tokenized[..|tokenized| - 1] == TokenizeItems(front, host).value;
      assert tokenized[|tokenized| - 1] == TokenizeValue(last, host).value;
    }
  }

  // What is shared has no other shared form.
  lemma {:induction false} SharedValueIsShared(value: Node, host: Host)
    requires TokenizeValue(value, host).Some?
    ensures TokenizeValue(TokenizeValue(value, host).value, host) == TokenizeValue(value, host)
    decreases value, 0
  {
    match value
    case Text(text) =>
      TokensAreNotPaths(text, host);
      if TokenizeHome(text, host).Some? {
        TokensAreNotPaths(TokenizeHome(text, host).value, host);
      }
    case List(items) =>
      SharedItemsAreShared(items, host);
    case _ =>
  }

  lemma {:induction false} SharedItemsAreShared(items: seq<Node>, host: Host)
    requires TokenizeItems(items, host).Some?
    ensures TokenizeItems(TokenizeItems(items, host).value, host) == TokenizeItems(items, host)
    decreases items, 1
  {
    if items != [] {
      var front, last := items[..|items| - 1], items[|items| - 1];
      var tokenized := TokenizeItems(items, host).value;
      SharedItemsAreShared(front, host);
      SharedValueIsShared(last, host);
      assert tokenized[..|tokenized| - 1] == TokenizeItems(front, host).value;
      assert tokenized[|tokenized| - 1] == TokenizeValue(last, host).value;
    }
  }

  // ---- What is shared, leaf by leaf ----

  // An absolute path outside the home directory.
  predicate IsForeign(text: string, host: Host) {
    LooksAbsolute(text, host.windows) && !UnderHome(text, host)
  }

  // Some text of the value, at any depth of lists, is one.
  predicate HoldsForeign(value: Node, host: Host)
    decreases value
  {
    match value
    case Text(text) => IsForeign(text, host)
    case List(items) => exists i :: 0 <= i < |items| && HoldsForeign(items[i], host)
    case _ => false
  }

  // The shared value is the local one, with every path under the home directory
  // written as a token.
  predicate SharesAs(value: Node, shared: Node, host: Host)
    decreases value
  {
    match value
    case Text(text) =>
      shared == Text(if UnderHome(text, host) && |host.home| <= |text| then "${HOME}" + Slashed(text)[|host.home|..]
                     else text)
    case List(items) =>
      shared.List? && |shared.items| == |items|
      && forall i :: 0 <= i < |items| ==> SharesAs(items[i], shared.items[i], host)
    case _ => shared == value
  }

  lemma {:induction false} ValueIsSharedExactly(value: Node, host: Host)
    ensures TokenizeValue(value, host).Some? <==> !HoldsForeign(value, host)
    ensures TokenizeValue(value, host).Some? ==> SharesAs(value, TokenizeValue(value, host).value, host)
    decreases value, 0
  {
    match value
    case Text(text) =>
      TokenizesExactly(text, host);
    case List(items) =>
      ItemsAreSharedExactly(items, host);
    case _ =>
  }

  lemma ListShared(items: seq<Node>, shared: seq<Node>, host: Host)
    requires items != [] && |shared| == |items|
    requires SharesAs(List(items[..|items| - 1]), List(shared[..|items| - 1]), host)
    requires SharesAs(items[|items| - 1], shared[|items| - 1], host)
    ensures SharesAs(List(items), List(shared), host)
  {
    forall i | 0 <= i < |items|
      ensures SharesAs(items[i], shared[i], host)
    {
      if i < |items| - 1 {
        assert items[..|items| - 1][i] == items[i] && shared[..|items| - 1][i] == shared[i];
      }
    }
  }

  lemma ListHoldsForeign(items: seq<Node>, host: Host)
    requires items != []
    ensures HoldsForeign(List(items), host) <==>
              HoldsForeign(List(items[..|items| - 1]), host) || HoldsForeign(items[|items| - 1], host)
  {
    var front := items[..|items| - 1];
    assert forall i :: 0 <= i < |front| ==> front[i] == items[i];
  }

  lemma {:induction false} ItemsAreSharedExactly(items: seq<Node>, host: Host)
    ensures TokenizeItems(items, host).Some? <==> !HoldsForeign(List(items), host)
    ensures TokenizeItems(items, host).Some? ==>
              SharesAs(List(items), List(TokenizeItems(items, host).value), host)
    decreases items, 1
  {
    if items != [] {
      var front, last := items[..|items| - 1], items[|items| - 1];
      ItemsAreSharedExactly(front, host);
      ValueIsSharedExactly(last, host);
      ListHoldsForeign(items, host);
      if TokenizeItems(items, host).Some? {
        var shared := TokenizeItems(items, host).value;
        assert shared[..|items| - 1] == TokenizeItems(front, host).value;
        assert shared[|items| - 1] == TokenizeValue(last, host).value;
        ListShared(items, shared, host);
      }
    }
  }

  predicate MayBeShared(policy: Policy, path: Segments) {
    var key := Join(path, '.');
    (policy.portable)(key) && !(policy.sensitive)(key) && !(policy.machineLocal)(key)
  }

  // A leaf is shared, if and only if its path is portable, neither sensitive nor of
  // this machine alone, and, in a path field, its value holds no absolute path outside
  // the home directory. It is shared as it is, or, in a path field, with tokens.
  lemma LeafIsSharedExactly(policy: Policy, host: Host, document: Document, projected: Document, path: Segments)
    requires Projects(policy, host, document, projected) && LeafAt(document, path).Some?
    ensures LeafAt(projected, path).Some? <==>
              MayBeShared(policy, path)
              && !((policy.pathFields)(Join(path, '.')) && HoldsForeign(LeafAt(document, path).value, host))
    ensures LeafAt(projected, path).Some? ==>
              if (policy.pathFields)(Join(path, '.'))
              then SharesAs(LeafAt(document, path).value, LeafAt(projected, path).value, host)
              else LeafAt(projected, path) == LeafAt(document, path)
  {
    assert LeafAt(projected, path) == Shared(policy, host, path, LeafAt(document, path));
    ValueIsSharedExactly(LeafAt(document, path).value, host);
  }

  // ---- What is received, leaf by leaf ----

  // Some text of the value is a token that cannot be expanded here.
  predicate HoldsBroken(value: Node, host: Host)
    decreases value
  {
    match value
    case Text(text) => IsBroken(text, host)
    case List(items) => exists i :: 0 <= i < |items| && HoldsBroken(items[i], host)
    case _ => false
  }

  // Some text of the value is an absolute path.
  predicate HoldsAbsolute(value: Node, host: Host)
    decreases value
  {
    match value
    case Text(text) => LooksAbsolute(text, host.windows)
    case List(items) => exists i :: 0 <= i < |items| && HoldsAbsolute(items[i], host)
    case _ => false
  }

  // The local value is the received one, with every token expanded to the home
  // directory of this computer, in its spelling.
  predicate ReceivedAs(value: Node, received: Node, host: Host)
    decreases value
  {
    match value
    case Text(text) =>
      received == Text(if IsToken(text) then Native(Slashed(host.home) + Slashed(text)[|HOME_TOKEN|..], host.windows)
                       else text)
    case List(items) =>
      received.List? && |received.items| == |items|
      && forall i :: 0 <= i < |items| ==> ReceivedAs(items[i], received.items[i], host)
    case _ => received == value
  }

  ghost predicate ExpandsAs<T>(expansion: Expansion<T>, broken: bool, absolute: bool) {
    && (expansion.Expanded? <==> !broken && !absolute)
    && (expansion.Failed? ==> broken)
    && (expansion.Unusable? ==> absolute)
  }

  lemma TokensAreNotAbsolute(text: string, host: Host)
    ensures IsToken(text) ==> !LooksAbsolute(text, host.windows)
  {
    TokensAreNotPaths(text, host);
  }

  lemma {:induction false} ValueIsReceivedExactly(value: Node, host: Host)
    ensures ExpandsAs(ExpandValue(value, host), HoldsBroken(value, host), HoldsAbsolute(value, host))
    ensures ExpandValue(value, host).Expanded? ==> ReceivedAs(value, ExpandValue(value, host).value, host)
    decreases value, 0
  {
    match value
    case Text(text) =>
      ExpandsExactly(text, host);
      TokensAreNotAbsolute(text, host);
    case List(items) =>
      ItemsAreReceivedExactly(items, host);
    case _ =>
  }

  lemma ListHolds(items: seq<Node>, host: Host)
    requires items != []
    ensures var front, last := items[..|items| - 1], items[|items| - 1];
            && (HoldsBroken(List(items), host) <==> HoldsBroken(List(front), host) || HoldsBroken(last, host))
            && (HoldsAbsolute(List(items), host) <==> HoldsAbsolute(List(front), host) || HoldsAbsolute(last, host))
  {
    var front := items[..|items| - 1];
    assert forall i :: 0 <= i < |front| ==> front[i] == items[i];
  }

  lemma ListReceived(items: seq<Node>, received: seq<Node>, host: Host)
    requires items != [] && |received| == |items|
    requires ReceivedAs(List(items[..|items| - 1]), List(received[..|items| - 1]), host)
    requires ReceivedAs(items[|items| - 1], received[|items| - 1], host)
    ensures ReceivedAs(List(items), List(received), host)
  {
    forall i | 0 <= i < |items|
      ensures ReceivedAs(items[i], received[i], host)
    {
      if i < |items| - 1 {
        assert items[..|items| - 1][i] == items[i] && received[..|items| - 1][i] == received[i];
      }
    }
  }

  lemma {:induction false} ItemsAreReceivedExactly(items: seq<Node>, host: Host)
    ensures ExpandsAs(ExpandItems(items, host), HoldsBroken(List(items), host), HoldsAbsolute(List(items), host))
    ensures ExpandItems(items, host).Expanded? ==>
              ReceivedAs(List(items), List(ExpandItems(items, host).value), host)
    decreases items, 1
  {
    if items != [] {
      var front, last := items[..|items| - 1], items[|items| - 1];
      ItemsAreReceivedExactly(front, host);
      ValueIsReceivedExactly(last, host);
      ListHolds(items, host);
      if ExpandItems(items, host).Expanded? {
        var received := ExpandItems(items, host).value;
        assert received[..|items| - 1] == ExpandItems(front, host).value;
        assert received[|items| - 1] == ExpandValue(last, host).value;
        ListReceived(items, received, host);
      }
    }
  }

  // A received leaf is written, if and only if its path may be shared, it is no empty
  // object and, in a path field, its value holds no broken token and no absolute path.
  // Then the restored document has it, in a path field with its tokens expanded.
  lemma LeafIsReceivedExactly(policy: Policy, host: Host, local: Document, base: Document, remote: Document,
                              restored: Document, path: Segments)
    requires Restores(policy, host, local, base, remote, restored) && LeafAt(remote, path).Some?
    ensures var leaf, pathField := LeafAt(remote, path).value, (policy.pathFields)(Join(path, '.'));
            && (Written(policy, host, remote, path) <==>
                  MayBeShared(policy, path) && leaf != Object(map[])
                  && !(pathField && (HoldsBroken(leaf, host) || HoldsAbsolute(leaf, host))))
            && (Written(policy, host, remote, path) ==>
                  LeafAt(restored, path).Some?
                  && if pathField then ReceivedAs(leaf, LeafAt(restored, path).value, host)
                     else LeafAt(restored, path) == Some(leaf))
  {
    ValueIsReceivedExactly(LeafAt(remote, path).value, host);
  }

  // ---- What is never shared ----

  // What is shared holds no absolute path, nor does any item of a list.
  lemma {:induction false} TokenizedHoldsNoPath(value: Node, host: Host)
    ensures TokenizeValue(value, host).Some? ==> !HoldsAbsolute(TokenizeValue(value, host).value, host)
    decreases value, 0
  {
    match value
    case Text(text) =>
      TokensAreNotPaths(text, host);
      if TokenizeHome(text, host).Some? {
        TokensAreNotPaths(TokenizeHome(text, host).value, host);
      }
    case List(items) =>
      ItemsHoldNoPath(items, host);
    case _ =>
  }

  lemma {:induction false} ItemsHoldNoPath(items: seq<Node>, host: Host)
    ensures TokenizeItems(items, host).Some? ==>
              forall i :: 0 <= i < |items| ==> !HoldsAbsolute(TokenizeItems(items, host).value[i], host)
    decreases items, 1
  {
    if items != [] {
      ItemsHoldNoPath(items[..|items| - 1], host);
      TokenizedHoldsNoPath(items[|items| - 1], host);
    }
  }

  // Every shared leaf was a leaf of the document on a portable path, neither
  // sensitive nor of this machine alone; and a path field shares no absolute path.
  lemma SharesOnlyPortable(policy: Policy, host: Host, document: Document, projected: Document, path: Segments)
    requires Projects(policy, host, document, projected) && LeafAt(projected, path).Some?
    ensures LeafAt(document, path).Some? && (policy.portable)(KeyPath(path))
    ensures !(policy.sensitive)(KeyPath(path)) && !(policy.machineLocal)(KeyPath(path))
    ensures if IsPathField(policy, path) then !HoldsAbsolute(LeafAt(projected, path).value, host)
            else LeafAt(projected, path) == LeafAt(document, path)
  {
    assert LeafAt(projected, path) == Shared(policy, host, path, LeafAt(document, path));
    TokenizedHoldsNoPath(LeafAt(document, path).value, host);
  }

  // ---- Leaves that stay ----

  // A local leaf that the remote did not withdraw is not deleted: the leaves to
  // delete are local leaves themselves.
  lemma NotDeleted(policy: Policy, host: Host, local: Document, base: Document, remote: Document, path: Segments)
    requires Projects(policy, host, local, base) && LeafAt(local, path).Some?
    ensures Deletes(policy, base, remote, path, LeafAt(local, path)) <==> Withdrawn(policy, base, remote, path)
  {
    if segments :| Withdrawn(policy, base, remote, segments) && Removes(segments, path, LeafAt(local, path)) {
      LeavesUnrelated(local, segments, path);
    }
    if Withdrawn(policy, base, remote, path) {
      assert Removes(path, path, LeafAt(local, path));
    }
  }

  // A base leaf that the received document no longer has is taken out of the local
  // document with everything under it, and with an empty object just above it.
  predicate Empties(path: Segments, leaf: Node, segments: Segments) {
    segments < path || (leaf == Object(map[]) && path < segments && |segments| == |path| + 1)
  }

  ghost predicate Uproots(policy: Policy, base: Document, remote: Document, path: Segments, leaf: Node) {
    exists segments :: Withdrawn(policy, base, remote, segments) && Empties(path, leaf, segments)
  }

  lemma UprootsExactly(policy: Policy, base: Document, remote: Document, path: Segments, leaf: Node)
    requires !IsPortable(policy, path)
    ensures Deletes(policy, base, remote, path, Some(leaf)) <==> Uproots(policy, base, remote, path, leaf)
  {
    if segments :| Withdrawn(policy, base, remote, segments) && Removes(segments, path, Some(leaf)) {
      assert segments != path;
      assert Empties(path, leaf, segments);
    }
    if segments :| Withdrawn(policy, base, remote, segments) && Empties(path, leaf, segments) {
      assert Removes(segments, path, Some(leaf));
    }
  }

  // Restoring keeps a local leaf that is not shared, if and only if no leaf that is
  // written lies on its path, above it or below it, and no shared leaf of the base
  // that the received document lacks lies above it (or, for an empty object, just
  // below it). The local document and the base may be any.
  lemma UnsharedLeafSurvivesExactly(policy: Policy, host: Host, local: Document, base: Document, remote: Document,
                                    restored: Document, path: Segments)
    requires Restores(policy, host, local, base, remote, restored)
    requires LeafAt(local, path).Some? && !IsPortable(policy, path)
    ensures LeafAt(restored, path) == LeafAt(local, path) <==>
              !Overwrites(policy, host, remote, path) && !Uproots(policy, base, remote, path, LeafAt(local, path).value)
  {
    UprootsExactly(policy, base, remote, path, LeafAt(local, path).value);
  }

  // As long as the local document still shares what the base says, only what is
  // received can cost it an unshared leaf.
  lemma UnmovedLeafSurvivesExactly(policy: Policy, host: Host, local: Document, base: Document, remote: Document,
                                   restored: Document, path: Segments)
    requires Projects(policy, host, local, base) && Restores(policy, host, local, base, remote, restored)
    requires LeafAt(local, path).Some? && !IsPortable(policy, path)
    ensures LeafAt(restored, path) == LeafAt(local, path) <==> !Overwrites(policy, host, remote, path)
  {
    NotDeleted(policy, host, local, base, remote, path);
  }

  lemma LongerKeyPath(path: Segments)
    requires path != []
    ensures KeyPath(path) == path[0] <==> path == [path[0]]
  {
    assert |path| > 1 ==> |KeyPath(path)| > |path[0]|;
  }

  // It happens: a secret inside an object that another computer replaced by text.
  lemma UnsharedLeafCanBeLost() returns (policy: Policy, host: Host, local: Document, base: Document, remote: Document)
    ensures Projects(policy, host, local, base) && Projects(policy, host, remote, remote)
            && !RestoreFails(policy, host, remote)
    ensures LeafAt(local, ["a", "secret"]).Some? && !IsPortable(policy, ["a", "secret"])
    ensures forall restored :: Restores(policy, host, local, base, remote, restored) ==>
              LeafAt(restored, ["a", "secret"]) == None
  {
    policy := Policy(path => path == "a", path => false, path => false, path => false);
    host := Host(false, "/home");
    local := map["a" := Object(map["secret" := Scalar("1")])];
    base := map[];
    remote := map["a" := Text("x")];
    assert KeyPath(["a"]) == "a";
    assert "secret" in local["a"].fields;
    assert !IsLeaf(local["a"]);
    forall path: Segments
      ensures Shared(policy, host, path, LeafAt(local, path)) == None
      ensures Shared(policy, host, path, LeafAt(remote, path)) == LeafAt(remote, path)
    {
      if path != [] && path[0] == "a" {
        LongerKeyPath(path);
        LeafUnderKey(local, "a", path[1..]);
        LeafUnderKey(remote, "a", path[1..]);
        assert path == ["a"] + path[1..];
        NothingUnderLeaf(Text("x"), path[1..]);
      }
    }
    LeafUnderKey(remote, "a", []);
    LeafUnderKey(local, "a", ["secret"]);
    LeafUnderKey(local["a"].fields, "secret", []);
    assert ["a"] + [] == ["a"] && ["secret"] + [] == ["secret"] && ["a"] + ["secret"] == ["a", "secret"];
    LongerKeyPath(["a", "secret"]);
    assert Written(policy, host, remote, ["a"]);
    assert Related(["a", "secret"], ["a"]);
    assert Overwrites(policy, host, remote, ["a", "secret"]);
  }

  // ---- PutGet ----

  // What one path must satisfy for the restored document to share there what was
  // received. A received leaf must be a shared form and its tokens canonical; an
  // empty object, which is never written, must be here already and not be taken out.
  // A leaf that was shared here and is not received must be overwritten or taken out.
  ghost predicate Returns(policy: Policy, host: Host, local: Document, base: Document, remote: Document,
                          path: Segments) {
    match LeafAt(remote, path)
    case Some(leaf) =>
      && Shared(policy, host, path, Some(leaf)) == Some(leaf)
      && (if leaf == Object(map[])
          then LeafAt(local, path) == Some(leaf) && !Deletes(policy, base, remote, path, Some(leaf))
          else IsPathField(policy, path) ==> CanonicalValue(leaf))
    case None =>
      Shared(policy, host, path, LeafAt(local, path)).Some? ==>
        Overwrites(policy, host, remote, path) || Deletes(policy, base, remote, path, LeafAt(local, path))
  }

  lemma SharedFormIsShared(policy: Policy, host: Host, path: Segments, leaf: Option<Node>)
    ensures Shared(policy, host, path, Shared(policy, host, path, leaf)) == Shared(policy, host, path, leaf)
  {
    if leaf.Some? && IsPathField(policy, path) && TokenizeValue(leaf.value, host).Some? {
      SharedValueIsShared(leaf.value, host);
    }
  }

  // A received leaf is written if it is a shared form, can be expanded and is not
  // an empty object.
  lemma SharedFormIsWritten(policy: Policy, host: Host, remote: Document, path: Segments)
    requires LeafAt(remote, path).Some? && Shared(policy, host, path, LeafAt(remote, path)) == LeafAt(remote, path)
    requires !RestoreFails(policy, host, remote)
    ensures Written(policy, host, remote, path) <==> LeafAt(remote, path).value != Object(map[])
  {
    assert !LocalForm(policy, host, path, LeafAt(remote, path)).Failed?;
    if IsPathField(policy, path) {
      ValuePutGet(LeafAt(remote, path).value, host);
    }
  }

  lemma PutGetOnReceived(policy: Policy, host: Host, local: Document, base: Document, remote: Document,
                         restored: Document, path: Segments)
    requires Restores(policy, host, local, base, remote, restored) && !RestoreFails(policy, host, remote)
    requires LeafAt(remote, path).Some?
    ensures Shared(policy, host, path, LeafAt(restored, path)) == LeafAt(remote, path)
            <==> Returns(policy, host, local, base, remote, path)
  {
    var leaf := LeafAt(remote, path).value;
    SharedFormIsShared(policy, host, path, LeafAt(restored, path));
    if Shared(policy, host, path, Some(leaf)) == Some(leaf) {
      SharedFormIsWritten(policy, host, remote, path);
      if leaf == Object(map[]) {
        if segments :| Written(policy, host, remote, segments) && Related(path, segments) {
          LeavesUnrelated(remote, path, segments);
        }
      } else if IsPathField(policy, path) {
        ValuePutGet(leaf, host);
      }
    }
  }

  // Whatever the local document and the base: sharing the restored document gives
  // exactly what was received, if and only if every path returns it.
  lemma PutGetExactly(policy: Policy, host: Host, local: Document, base: Document, remote: Document, restored: Document)
    requires Restores(policy, host, local, base, remote, restored) && !RestoreFails(policy, host, remote)
    ensures Projects(policy, host, restored, remote) <==>
              forall path :: Returns(policy, host, local, base, remote, path)
  {
    forall path: Segments
      ensures Shared(policy, host, path, LeafAt(restored, path)) == LeafAt(remote, path)
              <==> Returns(policy, host, local, base, remote, path)
    {
      if LeafAt(remote, path).Some? {
        PutGetOnReceived(policy, host, local, base, remote, restored, path);
      }
    }
    if Projects(policy, host, restored, remote) {
      forall path: Segments
        ensures Returns(policy, host, local, base, remote, path)
      {
        assert LeafAt(remote, path) == Shared(policy, host, path, LeafAt(restored, path));
      }
    }
  }

  // ---- PutGet of a local document that has not moved ----

  // Empty objects must be here already, and tokens must be canonical.
  predicate Accepts(policy: Policy, local: Document, remote: Document, path: Segments) {
    LeafAt(remote, path).Some? ==>
      && (LeafAt(remote, path).value == Object(map[]) ==> LeafAt(local, path) == LeafAt(remote, path))
      && (IsPathField(policy, path) ==> CanonicalValue(LeafAt(remote, path).value))
  }

  // The local document still shares what the base says, and the remote document is
  // nothing but shared content.
  ghost predicate Receives(policy: Policy, host: Host, local: Document, base: Document, remote: Document) {
    Projects(policy, host, local, base) && Projects(policy, host, remote, remote) && !RestoreFails(policy, host, remote)
  }

  lemma ReturnsUnmoved(policy: Policy, host: Host, local: Document, base: Document, remote: Document, path: Segments)
    requires Receives(policy, host, local, base, remote)
    ensures Returns(policy, host, local, base, remote, path) <==> Accepts(policy, local, remote, path)
  {
    assert Shared(policy, host, path, LeafAt(remote, path)) == LeafAt(remote, path);
    assert LeafAt(base, path) == Shared(policy, host, path, LeafAt(local, path));
    if LeafAt(local, path).Some? {
      NotDeleted(policy, host, local, base, remote, path);
    }
  }

  // Then the base does not matter, nor does what is shared here and not received.
  lemma UnmovedPutGetExactly(policy: Policy, host: Host, local: Document, base: Document, remote: Document,
                             restored: Document)
    requires Receives(policy, host, local, base, remote) && Restores(policy, host, local, base, remote, restored)
    ensures Projects(policy, host, restored, remote) <==> forall path :: Accepts(policy, local, remote, path)
  {
    PutGetExactly(policy, host, local, base, remote, restored);
    forall path: Segments
      ensures Returns(policy, host, local, base, remote, path) <==> Accepts(policy, local, remote, path)
    {
      ReturnsUnmoved(policy, host, local, base, remote, path);
    }
    if forall path :: Accepts(policy, local, remote, path) {
      assert forall path :: Returns(policy, host, local, base, remote, path);
    } else {
      var path :| !Accepts(policy, local, remote, path);
      assert !Returns(policy, host, local, base, remote, path);
    }
  }

  // ---- GetPut ----

  predicate FaithfulAt(policy: Policy, host: Host, local: Document, path: Segments) {
    LeafAt(local, path).Some? && IsPortable(policy, path) && IsPathField(policy, path)
      && TokenizeValue(LeafAt(local, path).value, host).Some?
    ==> FaithfulValue(LeafAt(local, path).value, host)
  }

  lemma GetPutAt(policy: Policy, host: Host, local: Document, base: Document, path: Segments)
    requires Projects(policy, host, local, base)
    ensures var form := LocalForm(policy, host, path, LeafAt(base, path));
            (form.Unusable? || (form.Expanded? && Some(form.value) == LeafAt(local, path)))
                <==> FaithfulAt(policy, host, local, path)
  {
    assert LeafAt(base, path) == Shared(policy, host, path, LeafAt(local, path));
    if LeafAt(base, path).Some? && IsPathField(policy, path) {
      ValueGetPut(LeafAt(local, path).value, host);
    }
  }

  lemma UnwrittenStays(policy: Policy, host: Host, local: Document, base: Document, path: Segments)
    requires Projects(policy, host, local, base) && !Written(policy, host, base, path)
    ensures RestoredLeaf(policy, host, local, base, base, path) == LeafAt(local, path)
  {
    if LeafAt(local, path).Some? {
      if segments :| Written(policy, host, base, segments) && Related(path, segments) {
        assert LeafAt(base, segments) == Shared(policy, host, segments, LeafAt(local, segments));
        LeavesUnrelated(local, path, segments);
      }
    }
  }

  // Restoring a document from what it shares gives it back, if and only if its
  // shared path values are faithful.
  lemma GetPutExactly(policy: Policy, host: Host, local: Document, base: Document, restored: Document)
    requires Projects(policy, host, local, base) && Restores(policy, host, local, base, base, restored)
    ensures (!RestoreFails(policy, host, base) && restored == local)
            <==> forall path :: FaithfulAt(policy, host, local, path)
  {
    forall path: Segments
      ensures !LocalForm(policy, host, path, LeafAt(base, path)).Failed?
              && LeafAt(restored, path) == LeafAt(local, path)
         <==> FaithfulAt(policy, host, local, path)
    {
      GetPutAt(policy, host, local, base, path);
      if !Written(policy, host, base, path) {
        UnwrittenStays(policy, host, local, base, path);
      }
    }
    if forall path :: FaithfulAt(policy, host, local, path) {
      LeavesDetermine(restored, local);
    }
  }
}
