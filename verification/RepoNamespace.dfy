// internal/resource/namespace.go: where a resource's files live in the
// repository, and which resource a repository path belongs to.
module RepoNamespace {
  import opened Strings
  import opened ResourcePlanning

  datatype Category = Sessions | Config | Instructions | SkillFiles | Plugins

  datatype Layout = Legacy | Portable

  // The fields of resource.Spec that name it; sharedAs is empty for a spec of its own.
  datatype Spec = Spec(key: string, provider: string, id: string, category: Category, layout: Layout, sharedAs: string)

  datatype RepoRef = RepoRef(provider: string, category: Category, resourceId: string, relative: string,
                             portable: bool, common: bool)

  function CategoryName(category: Category): string {
    match category
    case Sessions => "sessions"
    case Config => "config"
    case Instructions => "instructions"
    case SkillFiles => "skills"
    case Plugins => "plugins"
  }

  function ParseCategory(name: string): Option<Category> {
    if name == "sessions" then Some(Sessions)
    else if name == "config" then Some(Config)
    else if name == "instructions" then Some(Instructions)
    else if name == "skills" then Some(SkillFiles)
    else if name == "plugins" then Some(Plugins)
    else None
  }

  function LegacyResourceId(category: Category): string {
    match category
    case Config => "legacy-config"
    case Sessions => "legacy-sessions"
    case _ => ""
  }

  predicate ValidIdentifier(s: string) {
    !IsBlank(s) && s != "." && s != ".." && '/' !in s && '\\' !in s
  }

  predicate IsLetter(c: char) {
    'A' <= c <= 'Z' || 'a' <= c <= 'z'
  }

  predicate IsWindowsAbsolute(s: string) {
    |s| >= 3 && IsLetter(s[0]) && s[1] == ':' && s[2] == '/'
  }

  // A relative path of proper segments is what path.Clean leaves alone.
  predicate ValidRelative(s: string) {
    && !IsBlank(s) && '\\' !in s && !IsWindowsAbsolute(s)
    && AllProper(Split(s, '/'))
  }

  const PORTABLE_PROVIDER := "_portable"

  // The directory of a spec's files.
  function Directory(spec: Spec): Option<seq<string>> {
    if !ValidIdentifier(spec.provider) then None
    else match spec.layout
      case Legacy =>
        if spec.category == Config || spec.category == Sessions
        then Some(["agents", spec.provider, CategoryName(spec.category)]) else None
      case Portable =>
        if spec.sharedAs != "" || spec.provider == "common" then
          var resourceId := if spec.sharedAs == "" then spec.id else spec.sharedAs;
          if ValidIdentifier(resourceId)
          then Some(["agents", PORTABLE_PROVIDER, "config", "common", CategoryName(spec.category), resourceId])
              else None
        else if ValidIdentifier(spec.id)
          then Some(["agents", PORTABLE_PROVIDER, "config", "providers", spec.provider, CategoryName(spec.category),
                     spec.id]) else None
  }

  function RepoPath(spec: Spec, relative: string): Option<string> {
    if !ValidRelative(relative) then None
    else match Directory(spec)
      case None => None
      case Some(directory) => Some(Join(directory, '/') + "/" + relative)
  }

  function ParseLegacy(provider: string, section: string, relative: string): Option<RepoRef> {
    match ParseCategory(section)
    case None => None
    case Some(category) =>
      if category == Config || category == Sessions
      then Some(RepoRef(provider, category, LegacyResourceId(category), relative, false, false)) else None
  }

  function ParsePortable(provider: string, section: string, resourceId: string, relative: string,
                         common: bool): Option<RepoRef> {
    match ParseCategory(section)
    case None => None
    case Some(category) => Some(RepoRef(provider, category, resourceId, relative, true, common))
  }

  function ParseParts(parts: seq<string>): Option<RepoRef> {
    if |parts| < 4 || parts[0] != "agents" then None
    else if parts[1] != PORTABLE_PROVIDER then ParseLegacy(parts[1], parts[2], Join(parts[3..], '/'))
    else if |parts| < 7 || parts[2] != "config" then None
    else if parts[3] == "common" then ParsePortable("common", parts[4], parts[5], Join(parts[6..], '/'), true)
    else if parts[3] == "providers" && |parts| >= 8
        then ParsePortable(parts[4], parts[5], parts[6], Join(parts[7..], '/'), false)
    else None
  }

  function ParseRepoPath(path: string): Option<RepoRef> {
    if ValidRelative(path) then ParseParts(Split(path, '/')) else None
  }

  // specForRef looks a spec up under this key.
  function RefKey(ref: RepoRef): string {
    if ref.common then "common/" + ref.resourceId else ref.provider + "/" + ref.resourceId
  }

  // What BuildResourceSpecs guarantees about the specs it collects: provider and
  // identifiers are valid, a legacy resource has the id of its category, and a
  // shared one belongs to "common" and is keyed by the name it is shared as.
  predicate Built(spec: Spec) {
    && ValidIdentifier(spec.provider) && spec.provider != PORTABLE_PROVIDER && ValidIdentifier(spec.id)
    && (spec.sharedAs != "" ==> ValidIdentifier(spec.sharedAs) && spec.provider == "common")
    && (spec.layout == Legacy ==>
          (spec.category == Config && spec.id == "legacy-config")
          || (spec.category == Sessions && spec.id == "legacy-sessions"))
    && spec.key == if spec.sharedAs == "" then spec.provider + "/" + spec.id else "common/" + spec.sharedAs
  }

  // ---- The path and its parts ----

  // The path of a file splits into its directory and the segments of the file.
  lemma PathParts(directory: seq<string>, relative: string)
    requires directory != [] && directory[0] == "agents" && ValidRelative(relative)
    requires forall i :: 0 <= i < |directory| ==>
               IsProper(directory[i]) && '/' !in directory[i] && '\\' !in directory[i]
    ensures var path := Join(directory, '/') + "/" + relative;
            Split(path, '/') == directory + Split(relative, '/') && ValidRelative(path)
  {
    var path := Join(directory, '/') + "/" + relative;
    SplitJoin(directory, '/');
    SplitConcat(Join(directory, '/'), relative, '/');
    NoBackslash(directory);
    StartsWithAgents(directory);
    assert path[0] == 'a' && path[1] == 'g';
  }

  lemma {:induction false} NoBackslash(parts: seq<string>)
    requires forall i :: 0 <= i < |parts| ==> '\\' !in parts[i]
    ensures '\\' !in Join(parts, '/')
  {
    if |parts| > 1 {
      NoBackslash(parts[1..]);
    }
  }

  lemma StartsWithAgents(parts: seq<string>)
    requires parts != [] && parts[0] == "agents"
    ensures "agents" <= Join(parts, '/')
  {
  }

  lemma DirectoryIsProper(spec: Spec)
    requires Built(spec)
    ensures Directory(spec).Some? && Directory(spec).value != [] && Directory(spec).value[0] == "agents"
    ensures forall i :: 0 <= i < |Directory(spec).value| ==>
              var s := Directory(spec).value[i]; IsProper(s) && '/' !in s && '\\' !in s
  {
    assert spec.sharedAs == "" || ValidIdentifier(spec.sharedAs);
  }

  lemma PathOf(spec: Spec, relative: string)
    requires Built(spec) && ValidRelative(relative)
    ensures RepoPath(spec, relative).Some?
    ensures Split(RepoPath(spec, relative).value, '/') == Directory(spec).value + Split(relative, '/')
    ensures ValidRelative(RepoPath(spec, relative).value)
  {
    DirectoryIsProper(spec);
    PathParts(Directory(spec).value, relative);
  }

  // What a path says about the resource that owns it.
  function RefOf(spec: Spec, relative: string): RepoRef {
    match spec.layout
    case Legacy => RepoRef(spec.provider, spec.category, LegacyResourceId(spec.category), relative, false, false)
    case Portable =>
      if spec.sharedAs != "" || spec.provider == "common"
      then RepoRef("common", spec.category, if spec.sharedAs == "" then spec.id else spec.sharedAs,
                   relative, true, true)
      else RepoRef(spec.provider, spec.category, spec.id, relative, true, false)
  }

  lemma CategoryRoundTrip(category: Category)
    ensures ParseCategory(CategoryName(category)) == Some(category)
  {
  }

  lemma ParsePartsOf(spec: Spec, directory: seq<string>, tail: seq<string>, relative: string)
    requires Built(spec) && Directory(spec) == Some(directory) && tail != [] && Join(tail, '/') == relative
    ensures ParseParts(directory + tail) == Some(RefOf(spec, relative))
  {
    var parts := directory + tail;
    assert parts[|directory|..] == tail;
    CategoryRoundTrip(spec.category);
    match spec.layout
    case Legacy =>
      assert parts[0] == "agents" && parts[1] == spec.provider && parts[2] == CategoryName(spec.category);
    case Portable =>
      assert parts[0] == "agents" && parts[1] == PORTABLE_PROVIDER && parts[2] == "config";
  }

  // Parsing a built path gives back the relative path, the category, the layout
  // and the identity that the path was built from.
  lemma ParseBuiltPath(spec: Spec, relative: string)
    requires Built(spec) && ValidRelative(relative)
    ensures RepoPath(spec, relative).Some?
    ensures ParseRepoPath(RepoPath(spec, relative).value) == Some(RefOf(spec, relative))
  {
    PathOf(spec, relative);
    JoinSplit(relative, '/');
    ParsePartsOf(spec, Directory(spec).value, Split(relative, '/'), relative);
  }

  // A legacy resource that is shared is stored under the legacy id, but kept under
  // the name it is shared as.
  predicate Misfiled(spec: Spec) {
    spec.layout == Legacy && spec.sharedAs != "" && spec.sharedAs != LegacyResourceId(spec.category)
  }

  lemma CommonKey(one: string, other: string)
    ensures "common/" + one == "common/" + other <==> one == other
  {
    assert ("common/" + one)[7..] == one && ("common/" + other)[7..] == other;
  }

  lemma KeyOfRef(spec: Spec, relative: string)
    requires Built(spec)
    ensures RefKey(RefOf(spec, relative)) == spec.key <==> !Misfiled(spec)
  {
    if spec.layout == Legacy && spec.sharedAs != "" {
      assert RefKey(RefOf(spec, relative)) == "common" + "/" + spec.id;
      assert "common" + "/" + spec.id == "common/" + spec.id;
      CommonKey(spec.id, spec.sharedAs);
    } else if spec.sharedAs == "" && spec.provider == "common" {
      assert "common" + "/" + spec.id == "common/" + spec.id;
    }
  }

  // A path leads back to the spec it was built from, if and only if that spec is
  // not a legacy resource shared under another name.
  lemma PathFindsSpecExactly(spec: Spec, relative: string)
    requires Built(spec) && ValidRelative(relative)
    ensures RepoPath(spec, relative).Some? && ParseRepoPath(RepoPath(spec, relative).value).Some?
    ensures RefKey(ParseRepoPath(RepoPath(spec, relative).value).value) == spec.key <==> !Misfiled(spec)
  {
    ParseBuiltPath(spec, relative);
    KeyOfRef(spec, relative);
  }

  // Two different specs never share a repository path, unless one of them is misfiled.
  lemma DistinctSpecsDistinctPaths(one: Spec, other: Spec, relative: string, otherRelative: string)
    requires Built(one) && Built(other) && one.key != other.key && !Misfiled(one) && !Misfiled(other)
    requires ValidRelative(relative) && ValidRelative(otherRelative)
    ensures RepoPath(one, relative) != RepoPath(other, otherRelative)
  {
    PathFindsSpecExactly(one, relative);
    PathFindsSpecExactly(other, otherRelative);
  }

  // Misfiled specs do collide: resources of one category shared under two names
  // are stored on the same paths, and no path finds either of them.
  lemma MisfiledSpecsCollide(one: Spec, other: Spec, relative: string)
    requires Built(one) && Built(other) && Misfiled(one) && Misfiled(other) && one.category == other.category
    requires ValidRelative(relative)
    ensures RepoPath(one, relative).Some? && RepoPath(one, relative) == RepoPath(other, relative)
    ensures var ref := ParseRepoPath(RepoPath(one, relative).value);
            ref.Some? && RefKey(ref.value) != one.key && RefKey(ref.value) != other.key
  {
    PathFindsSpecExactly(one, relative);
    PathFindsSpecExactly(other, relative);
    ParseBuiltPath(one, relative);
  }

  // The path of a resource file is never one of the engine's own metadata paths.
  lemma ResourcePathsAreNotMetadata(spec: Spec, relative: string)
    requires Built(spec) && ValidRelative(relative)
    ensures RepoPath(spec, relative).Some? && !IsInternalPortablePath(RepoPath(spec, relative).value)
  {
    PathOf(spec, relative);
    DirectoryIsProper(spec);
    var parts := Split(RepoPath(spec, relative).value, '/');
    if spec.layout == Legacy {
      assert parts[1] == spec.provider;
      assert parts[..4][1] == parts[1];
    } else {
      assert |parts| >= 7;
    }
  }
}
