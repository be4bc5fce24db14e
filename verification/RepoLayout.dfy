// internal/resource/namespace.go: the repository paths as they are written, and the way
// back from every path that can be read.
module RepoLayout {
  import opened Strings
  import opened ResourcePlanning
  import opened RepoNamespace

  // ---- The paths that are valid ----

  ghost predicate StartsAtDrive(path: string) {
    exists letter: char, rest: string ::
      path == [letter] + ":/" + rest && ('A' <= letter <= 'Z' || 'a' <= letter <= 'z')
  }

  lemma DriveExactly(path: string)
    ensures IsWindowsAbsolute(path) <==> StartsAtDrive(path)
  {
    if letter: char, rest: string :|
         path == [letter] + ":/" + rest && ('A' <= letter <= 'Z' || 'a' <= letter <= 'z') {
      assert path[0] == letter && path[1] == ':' && path[2] == '/';
    }
    if IsWindowsAbsolute(path) {
      assert path == [path[0]] + ":/" + path[3..];
    }
  }

  // A relative path is valid if it is made of proper segments without a backslash, has
  // something to see and does not start at a drive.
  lemma ValidRelativeExactly(path: string)
    ensures ValidRelative(path) <==>
              && (exists segments :: IsMadeOf(path, segments)) && '\\' !in path
              && (exists i :: 0 <= i < |path| && !IsSpace(path[i]))
              && !StartsAtDrive(path)
  {
    MadeOfExactly(path);
    DriveExactly(path);
  }

  // ---- The layout ----

  function NameOf(category: Category): string {
    match category
    case Plugins => "plugins"
    case Config => "config"
    case Sessions => "sessions"
    case SkillFiles => "skills"
    case Instructions => "instructions"
  }

  // Where the file of a resource lies: a legacy resource below its provider and
  // category, a common or shared one below common, any other below its provider.
  lemma LayoutIs(spec: Spec, relative: string)
    requires Built(spec) && ValidRelative(relative)
    ensures RepoPath(spec, relative) == Some(
              if spec.layout == Legacy
              then Join(["agents", spec.provider, NameOf(spec.category), relative], '/')
              else if spec.sharedAs != ""
              then Join(["agents", "_portable", "config", "common", NameOf(spec.category), spec.sharedAs, relative],
                        '/')
              else if spec.provider == "common"
              then Join(["agents", "_portable", "config", "common", NameOf(spec.category), spec.id, relative], '/')
              else Join(["agents", "_portable", "config", "providers", spec.provider, NameOf(spec.category), spec.id,
                         relative], '/'))
  {
    DirectoryIsProper(spec);
    var directory := Directory(spec).value;
    JoinLast(directory, relative);
    NamedAs(spec.category);
    if spec.layout == Legacy {
      assert directory + [relative] == ["agents", spec.provider, NameOf(spec.category), relative];
    } else if spec.sharedAs != "" || spec.provider == "common" {
      var id := if spec.sharedAs != "" then spec.sharedAs else spec.id;
      assert directory + [relative]
          == ["agents", "_portable", "config", "common", NameOf(spec.category), id, relative];
    } else {
      assert directory + [relative]
          == ["agents", "_portable", "config", "providers", spec.provider, NameOf(spec.category), spec.id, relative];
    }
  }

  lemma NamedAs(category: Category)
    ensures CategoryName(category) == NameOf(category)
  {
  }

  // Exactly these have a path at all.
  lemma BuildsExactly(spec: Spec, relative: string)
    ensures RepoPath(spec, relative).Some? <==>
              && ValidRelative(relative) && ValidIdentifier(spec.provider)
              && match spec.layout
                 case Legacy => spec.category in {Config, Sessions}
                 case Portable => ValidIdentifier(if spec.sharedAs != "" then spec.sharedAs else spec.id)
  {
  }

  lemma {:induction false} JoinLast(parts: seq<string>, last: string)
    requires parts != []
    ensures Join(parts, '/') + "/" + last == Join(parts + [last], '/')
  {
    if |parts| > 1 {
      JoinLast(parts[1..], last);
      assert (parts + [last])[1..] == parts[1..] + [last];
      var rest := Join(parts[1..], '/');
      assert parts[0] + ['/'] + rest + "/" + last == parts[0] + ['/'] + (rest + "/" + last);
    } else {
      assert parts + [last] == [parts[0], last] && (parts + [last])[1..] == [last];
    }
  }

  // ---- The way back ----

  predicate IsName(name: string) {
    name in {"sessions", "config", "instructions", "skills", "plugins"}
  }

  // Exactly these paths can be read.
  lemma ParsesExactly(path: string)
    ensures ParseRepoPath(path).Some? <==>
              ValidRelative(path) &&
              var parts := Split(path, '/');
              || (|parts| >= 4 && parts[0] == "agents" && parts[1] != "_portable"
                  && (parts[2] == "config" || parts[2] == "sessions"))
              || (|parts| >= 7 && parts[..4] == ["agents", "_portable", "config", "common"] && IsName(parts[4]))
              || (|parts| >= 8 && parts[..4] == ["agents", "_portable", "config", "providers"] && IsName(parts[5]))
  {
    var parts := Split(path, '/');
    if |parts| >= 4 {
      assert parts[..4] == [parts[0], parts[1], parts[2], parts[3]];
    }
  }

  // The spec that a path speaks of.
  function SpecOf(ref: RepoRef): Spec {
    Spec(RefKey(ref), ref.provider, ref.resourceId, ref.category, if ref.portable then Portable else Legacy, "")
  }

  lemma CategoryIsNamed(name: string)
    ensures ParseCategory(name).Some? ==> CategoryName(ParseCategory(name).value) == name
  {
  }

  lemma {:induction false} JoinSplitAt(parts: seq<string>, n: nat)
    requires 0 < n < |parts|
    ensures Join(parts, '/') == Join(parts[..n], '/') + "/" + Join(parts[n..], '/')
  {
    if n == 1 {
      assert parts[..1] == [parts[0]];
    } else {
      JoinSplitAt(parts[1..], n - 1);
      assert parts[1..][..n - 1] == parts[..n][1..] && parts[1..][n - 1..] == parts[n..];
      var front, back := Join(parts[..n][1..], '/'), Join(parts[n..], '/');
      assert parts[0] + ['/'] + (front + "/" + back) == parts[0] + ['/'] + front + "/" + back;
    }
  }

  // How many segments of a path that was read name its resource.
  function HeadLength(ref: RepoRef): nat {
    if !ref.portable then 3 else if ref.common then 6 else 7
  }

  predicate CanBeBuilt(ref: RepoRef) {
    ValidIdentifier(ref.provider) && (ref.portable ==> ValidIdentifier(ref.resourceId))
  }

  lemma ParsedParts(path: string)
    requires ParseRepoPath(path).Some?
    ensures var ref, parts := ParseRepoPath(path).value, Split(path, '/');
            var n := HeadLength(ref);
            n < |parts| && ref.relative == Join(parts[n..], '/')
            && path == Join(parts[..n], '/') + "/" + ref.relative
  {
    var ref, parts := ParseRepoPath(path).value, Split(path, '/');
    JoinSplit(path, '/');
    JoinSplitAt(parts, HeadLength(ref));
  }

  lemma ParsedDirectory(path: string)
    requires ParseRepoPath(path).Some?
    ensures var ref, parts := ParseRepoPath(path).value, Split(path, '/');
            && (!CanBeBuilt(ref) ==> Directory(SpecOf(ref)) == None)
            && (CanBeBuilt(ref) && (ref.portable && ref.provider == "common" ==> ref.common) ==>
                  HeadLength(ref) <= |parts| && Directory(SpecOf(ref)) == Some(parts[..HeadLength(ref)]))
  {
    var ref, parts := ParseRepoPath(path).value, Split(path, '/');
    CategoryIsNamed(if !ref.portable then parts[2] else if ref.common then parts[4] else parts[5]);
    if CanBeBuilt(ref) && (ref.portable && ref.provider == "common" ==> ref.common) {
      var directory := Directory(SpecOf(ref)).value;
      assert |directory| == HeadLength(ref) && directory == parts[..HeadLength(ref)];
    }
  }

  // A path that can be read is built again from what was read, if and only if its
  // provider, its resource and its relative path can be built from at all, and a
  // resource below providers is not below the provider common.
  lemma ParsedRebuildsExactly(path: string)
    requires ParseRepoPath(path).Some?
    ensures var ref := ParseRepoPath(path).value;
            RepoPath(SpecOf(ref), ref.relative) == Some(path) <==>
              && ValidRelative(ref.relative) && ValidIdentifier(ref.provider)
              && (ref.portable ==> ValidIdentifier(ref.resourceId) && (ref.provider == "common" ==> ref.common))
  {
    var ref := ParseRepoPath(path).value;
    ParsedParts(path);
    ParsedDirectory(path);
    if ref.portable && ref.provider == "common" && !ref.common {
      RebuiltElsewhere(path, ref);
    }
  }

  lemma RebuiltElsewhere(path: string, ref: RepoRef)
    requires ParseRepoPath(path) == Some(ref) && ref.portable && ref.provider == "common" && !ref.common
    ensures RepoPath(SpecOf(ref), ref.relative) != Some(path)
  {
    var directory := Directory(SpecOf(ref));
    if RepoPath(SpecOf(ref), ref.relative) == Some(path) {
      assert directory.value[3] == "common";
      var parts := Split(path, '/');
      assert parts[3] == "providers";
      forall i | 0 <= i < |directory.value|
        ensures '/' !in directory.value[i]
      {
        CategoryHasNoSlash(ref.category);
      }
      SplitJoin(directory.value, '/');
      SplitConcat(Join(directory.value, '/'), ref.relative, '/');
    }
  }

  lemma CategoryHasNoSlash(category: Category)
    ensures '/' !in CategoryName(category)
  {
  }

  // ---- The engine's own paths, and prefixes ----

  ghost predicate IsInstallMetadata(path: string) {
    exists name :: name != "" && '/' !in name && path == Join(["agents", "_portable", "config", "install", name], '/')
  }

  ghost predicate IsConflictMetadata(path: string) {
    exists id, file :: id != "" && '/' !in id && file in {"record.json", "base", "local", "remote"}
                       && path == Join(["agents", "_portable", "config", "conflicts", id, file], '/')
  }

  predicate SplitsAsInstall(parts: seq<string>) {
    |parts| == 5 && parts[..4] == ["agents", "_portable", "config", "install"] && parts[4] != ""
  }

  predicate SplitsAsConflict(parts: seq<string>) {
    && |parts| == 6 && parts[..4] == ["agents", "_portable", "config", "conflicts"] && parts[4] != ""
    && parts[5] in {"record.json", "base", "local", "remote"}
  }

  lemma InstallMetadataExactly(path: string)
    ensures IsInstallMetadata(path) <==> SplitsAsInstall(Split(path, '/'))
  {
    var parts := Split(path, '/');
    JoinSplit(path, '/');
    if SplitsAsInstall(parts) {
      assert parts == ["agents", "_portable", "config", "install", parts[4]];
      assert parts[4] in parts;
    }
    if name :| name != "" && '/' !in name && path == Join(["agents", "_portable", "config", "install", name], '/') {
      SplitJoin(["agents", "_portable", "config", "install", name], '/');
    }
  }

  lemma ConflictMetadataExactly(path: string)
    ensures IsConflictMetadata(path) <==> SplitsAsConflict(Split(path, '/'))
  {
    var parts := Split(path, '/');
    JoinSplit(path, '/');
    if SplitsAsConflict(parts) {
      assert parts == ["agents", "_portable", "config", "conflicts", parts[4], parts[5]];
      assert parts[4] in parts;
    }
    if id, file :| id != "" && '/' !in id && file in {"record.json", "base", "local", "remote"}
                   && path == Join(["agents", "_portable", "config", "conflicts", id, file], '/') {
      SplitJoin(["agents", "_portable", "config", "conflicts", id, file], '/');
    }
  }

  // The engine's own files are the install plans and the four files of each conflict
  // bundle, and no others.
  lemma MetadataPathsExactly(path: string)
    ensures IsInternalPortablePath(path) <==> IsInstallMetadata(path) || IsConflictMetadata(path)
  {
    InstallMetadataExactly(path);
    ConflictMetadataExactly(path);
  }

  // A path is under a prefix without a slash at its end, if and only if its segments
  // begin with those of the prefix.
  lemma PrefixExactly(path: string, prefix: string)
    requires !HasSuffix(prefix, "/")
    ensures PathHasPrefix(path, prefix) <==> Split(prefix, '/') <= Split(path, '/')
    ensures PathHasPrefix(path, prefix + "/") <==> PathHasPrefix(path, prefix)
  {
    var parts, heads := Split(path, '/'), Split(prefix, '/');
    assert (prefix + "/")[..|prefix|] == prefix;
    if HasPrefix(path, prefix + "/") {
      var rest := path[|prefix| + 1..];
      assert path == prefix + ['/'] + rest;
      SplitConcat(prefix, rest, '/');
    }
    if heads <= parts {
      JoinSplit(path, '/');
      JoinSplit(prefix, '/');
      if |heads| < |parts| {
        JoinSplitAt(parts, |heads|);
        assert parts[..|heads|] == heads;
      } else {
        assert parts == heads;
      }
    }
  }
}
