// internal/resourcecollect/collector.go: walking the directories of a resource
// through symbolic links.
module Collector {
  import opened Strings

  type Path = seq<string>

  // A link holds what filepath.EvalSymlinks resolves it to, if anything.
  datatype Kind = Directory | Regular | Link(target: Option<Path>)

  datatype Entry = Entry(name: string, kind: Kind)

  // Directory listings, directories that cannot be read, and regular files, by
  // canonical path.
  datatype FileSystem = FileSystem(dirs: map<Path, seq<Entry>>, unreadable: set<Path>, files: set<Path>)

  // What becomes of a file that the walk reaches: it is collected, passed over
  // silently, or passed over with an issue.
  datatype Verdict = Take | Ignore | Refuse

  // The decisions of a resource: which logical paths it owns, which directories
  // its exclusions and the filter keep out, what it does with files, and which link
  // targets the user has approved.
  datatype Policy = Policy(
    root: Path,
    owns: Path -> bool,
    excluded: Path -> bool,
    filtered: Path -> bool,
    verdict: (Path, Path) -> Verdict,
    approved: Path -> bool)

  datatype Code = WalkFailed | LinkUnavailable | UnapprovedLink | LinkCycle | DirectoryFiltered | FileRefused

  datatype Event = Collected(logical: Path, physical: Path) | Skipped(logical: Path, code: Code)

  predicate Skips(policy: Policy, path: Path) {
    policy.excluded(path) || policy.filtered(path)
  }

  predicate Takes(policy: Policy, logical: Path, physical: Path) {
    policy.verdict(logical, physical) == Take
  }

  predicate IsDir(fs: FileSystem, path: Path) {
    path in fs.dirs || path in fs.unreadable
  }

  predicate Within(root: Path, path: Path) {
    root <= path
  }

  // ---- Termination ----

  // How far a directory can still be descended into without following a link.
  ghost function Room(fs: FileSystem, dir: Path): nat {
    if dir in fs.dirs then Longest(fs.dirs.Keys) + 1 - |dir| else 0
  }

  ghost function Unvisited(fs: FileSystem, ancestors: set<Path>): set<Path> {
    fs.dirs.Keys - ancestors
  }

  // Following a link that is not a cycle leaves fewer directories unvisited, or leads
  // to one that cannot be read; descending leaves no more, and less room.
  lemma LinkDecreases(fs: FileSystem, ancestors: set<Path>, dir: Path, target: Path)
    requires dir in fs.dirs && target !in ancestors
    ensures |Unvisited(fs, ancestors + {target})| <= |Unvisited(fs, ancestors)|
    ensures target in fs.dirs ==> |Unvisited(fs, ancestors + {target})| < |Unvisited(fs, ancestors)|
    ensures target !in fs.dirs ==> Room(fs, target) < Room(fs, dir)
  {
    var fewer, more := Unvisited(fs, ancestors + {target}), Unvisited(fs, ancestors);
    assert more == fewer + (more - fewer);
    if target in fs.dirs {
      assert target in more - fewer;
    }
  }

  lemma DescentDecreases(fs: FileSystem, ancestors: set<Path>, dir: Path, name: string)
    requires dir in fs.dirs
    ensures |Unvisited(fs, ancestors + {dir + [name]})| <= |Unvisited(fs, ancestors)|
    ensures Room(fs, dir + [name]) < Room(fs, dir)
  {
    var fewer, more := Unvisited(fs, ancestors + {dir + [name]}), Unvisited(fs, ancestors);
    assert more == fewer + (more - fewer);
  }

  // ---- What a walk collects ----

  function Walk(fs: FileSystem, policy: Policy, dir: Path, logical: Path, ancestors: set<Path>): seq<Event>
    decreases |Unvisited(fs, ancestors)|, Room(fs, dir), 2, 0
  {
    if dir !in fs.dirs then [Skipped(logical, WalkFailed)]
    else WalkEntries(fs, policy, dir, logical, ancestors, |fs.dirs[dir]|)
  }

  function WalkEntries(fs: FileSystem, policy: Policy, dir: Path, logical: Path, ancestors: set<Path>,
                       count: nat): seq<Event>
    requires dir in fs.dirs && count <= |fs.dirs[dir]|
    decreases |Unvisited(fs, ancestors)|, Room(fs, dir), 1, count
  {
    if count == 0 then []
    else
      WalkEntries(fs, policy, dir, logical, ancestors, count - 1)
      + WalkEntry(fs, policy, dir, logical, ancestors, fs.dirs[dir][count - 1])
  }

  function WalkEntry(fs: FileSystem, policy: Policy, dir: Path, logical: Path, ancestors: set<Path>,
                     entry: Entry): seq<Event>
    requires dir in fs.dirs
    decreases |Unvisited(fs, ancestors)|, Room(fs, dir), 0, 1
  {
    var physical, path := dir + [entry.name], logical + [entry.name];
    if !policy.owns(path) then []
    else match entry.kind
      case Regular => TakeFile(policy, path, physical)
      case Directory =>
        DescentDecreases(fs, ancestors, dir, entry.name);
        if Skips(policy, path) then SkipDirectory(policy, path)
        else Walk(fs, policy, physical, path, ancestors + {physical})
      case Link(target) =>
        if Skips(policy, path) then SkipDirectory(policy, path)
        else FollowLink(fs, policy, dir, target, path, ancestors)
  }

  function FollowLink(fs: FileSystem, policy: Policy, dir: Path, target: Option<Path>, path: Path,
                      ancestors: set<Path>): seq<Event>
    requires dir in fs.dirs
    decreases |Unvisited(fs, ancestors)|, Room(fs, dir), 0, 0
  {
    if target.None? then [Skipped(path, LinkUnavailable)]
    else if !Within(policy.root, target.value) && !policy.approved(target.value) then [Skipped(path, UnapprovedLink)]
    else if IsDir(fs, target.value) then
      if target.value in ancestors then [Skipped(path, LinkCycle)]
      else
        LinkDecreases(fs, ancestors, dir, target.value);
        Walk(fs, policy, target.value, path, ancestors + {target.value})
    else if target.value in fs.files then TakeFile(policy, path, target.value)
    else [Skipped(path, LinkUnavailable)]
  }

  function TakeFile(policy: Policy, logical: Path, physical: Path): seq<Event> {
    match policy.verdict(logical, physical)
    case Take => [Collected(logical, physical)]
    case Ignore => []
    case Refuse => [Skipped(logical, FileRefused)]
  }

  // Exclusions are silent, the filter reports an issue.
  function SkipDirectory(policy: Policy, path: Path): seq<Event> {
    if policy.excluded(path) then [] else [Skipped(path, DirectoryFiltered)]
  }

  function CollectSpec(fs: FileSystem, policy: Policy): seq<Event> {
    Walk(fs, policy, policy.root, [], {policy.root})
  }

  // ---- Containment ----

  // The resource root and the approved link targets, with everything below them.
  ghost predicate Permitted(policy: Policy, path: Path) {
    Within(policy.root, path) || exists target :: policy.approved(target) && Within(target, path)
  }

  ghost predicate AllPermitted(policy: Policy, events: seq<Event>) {
    forall i :: 0 <= i < |events| && events[i].Collected? ==>
      Permitted(policy, events[i].physical) && Takes(policy, events[i].logical, events[i].physical)
  }

  lemma PermittedBelow(policy: Policy, path: Path, below: Path)
    requires Permitted(policy, path) && path <= below
    ensures Permitted(policy, below)
  {
    if !Within(policy.root, path) {
      var target :| policy.approved(target) && Within(target, path);
      assert Within(target, below);
    }
  }

  lemma {:induction false} WalkStaysInside(fs: FileSystem, policy: Policy, dir: Path, logical: Path,
                                           ancestors: set<Path>)
    requires Permitted(policy, dir)
    ensures AllPermitted(policy, Walk(fs, policy, dir, logical, ancestors))
    decreases |Unvisited(fs, ancestors)|, Room(fs, dir), 2, 0
  {
    if dir in fs.dirs {
      EntriesStayInside(fs, policy, dir, logical, ancestors, |fs.dirs[dir]|);
    }
  }

  lemma {:induction false} EntriesStayInside(fs: FileSystem, policy: Policy, dir: Path, logical: Path,
                                             ancestors: set<Path>, count: nat)
    requires Permitted(policy, dir) && dir in fs.dirs && count <= |fs.dirs[dir]|
    ensures AllPermitted(policy, WalkEntries(fs, policy, dir, logical, ancestors, count))
    decreases |Unvisited(fs, ancestors)|, Room(fs, dir), 1, count
  {
    if count > 0 {
      EntriesStayInside(fs, policy, dir, logical, ancestors, count - 1);
      EntryStaysInside(fs, policy, dir, logical, ancestors, fs.dirs[dir][count - 1]);
    }
  }

  lemma {:induction false} EntryStaysInside(fs: FileSystem, policy: Policy, dir: Path, logical: Path,
                                            ancestors: set<Path>, entry: Entry)
    requires Permitted(policy, dir) && dir in fs.dirs
    ensures AllPermitted(policy, WalkEntry(fs, policy, dir, logical, ancestors, entry))
    decreases |Unvisited(fs, ancestors)|, Room(fs, dir), 0, 1
  {
    var physical, path := dir + [entry.name], logical + [entry.name];
    match entry.kind
    case Regular =>
      PermittedBelow(policy, dir, physical);
    case Directory =>
      PermittedBelow(policy, dir, physical);
      DescentDecreases(fs, ancestors, dir, entry.name);
      WalkStaysInside(fs, policy, physical, path, ancestors + {physical});
    case Link(target) =>
      LinkStaysInside(fs, policy, dir, target, path, ancestors);
  }

  lemma {:induction false} LinkStaysInside(fs: FileSystem, policy: Policy, dir: Path, target: Option<Path>,
                                           path: Path, ancestors: set<Path>)
    requires dir in fs.dirs
    ensures AllPermitted(policy, FollowLink(fs, policy, dir, target, path, ancestors))
    decreases |Unvisited(fs, ancestors)|, Room(fs, dir), 0, 0
  {
    if target.Some? && (Within(policy.root, target.value) || policy.approved(target.value)) {
      assert Within(target.value, target.value);
      if IsDir(fs, target.value) && target.value !in ancestors {
        LinkDecreases(fs, ancestors, dir, target.value);
        WalkStaysInside(fs, policy, target.value, path, ancestors + {target.value});
      }
    }
  }

  // On any finite file system, with whatever links, the walk ends, and every
  // file it collects lies under the resource root or an approved link target.
  lemma CollectsOnlyPermitted(fs: FileSystem, policy: Policy)
    ensures AllPermitted(policy, CollectSpec(fs, policy))
  {
    WalkStaysInside(fs, policy, policy.root, [], {policy.root});
  }

  // ---- Exactly what is collected ----

  predicate Lists(entries: seq<Entry>, entry: Entry) {
    exists i :: 0 <= i < |entries| && entries[i] == entry
  }

  // The directory that an entry leads into, if the walk may enter it: a
  // subdirectory, or a link to a permitted directory that is not an ancestor.
  predicate Enters(fs: FileSystem, policy: Policy, dir: Path, ancestors: set<Path>, entry: Entry, next: Path) {
    match entry.kind
    case Regular => false
    case Directory => next == dir + [entry.name]
    case Link(target) =>
      target == Some(next) && IsDir(fs, next) && next !in ancestors
          && (Within(policy.root, next) || policy.approved(next))
  }

  // The file that an entry stands for, if any.
  predicate StandsFor(fs: FileSystem, policy: Policy, dir: Path, logical: Path, entry: Entry, file: Path) {
    match entry.kind
    case Regular => file == dir + [entry.name]
    case Directory => false
    case Link(target) =>
      target == Some(file) && !IsDir(fs, file) && file in fs.files
      && (Within(policy.root, file) || policy.approved(file)) && !Skips(policy, logical + [entry.name])
  }

  // Following the names of a route from a directory leads to a file that the
  // policy takes, through owned names and directories that are not skipped.
  ghost predicate Leads(fs: FileSystem, policy: Policy, dir: Path, logical: Path, ancestors: set<Path>, route: Path,
                        file: Path)
    decreases |route|
  {
    route != [] && dir in fs.dirs && policy.owns(logical + [route[0]]) &&
    if |route| == 1 then
      Takes(policy, logical + route, file)
      && exists kind ::
           Lists(fs.dirs[dir], Entry(route[0], kind))
           && StandsFor(fs, policy, dir, logical, Entry(route[0], kind), file)
    else
      !Skips(policy, logical + [route[0]])
      && exists kind, next ::
           Lists(fs.dirs[dir], Entry(route[0], kind)) && Enters(fs, policy, dir, ancestors, Entry(route[0], kind), next)
           && Leads(fs, policy, next, logical + [route[0]], ancestors + {next}, route[1..], file)
  }

  lemma {:induction false} EntriesInclude(fs: FileSystem, policy: Policy, dir: Path, logical: Path,
                                          ancestors: set<Path>,
                                            i: nat, count: nat, event: Event)
    requires dir in fs.dirs && i < count <= |fs.dirs[dir]|
    requires event in WalkEntry(fs, policy, dir, logical, ancestors, fs.dirs[dir][i])
    ensures event in WalkEntries(fs, policy, dir, logical, ancestors, count)
    decreases count
  {
    if i < count - 1 {
      EntriesInclude(fs, policy, dir, logical, ancestors, i, count - 1, event);
    }
  }

  lemma {:induction false} EntryOf(fs: FileSystem, policy: Policy, dir: Path, logical: Path, ancestors: set<Path>,
                                   count: nat, event: Event)
    returns (i: nat)
    requires dir in fs.dirs && count <= |fs.dirs[dir]|
    requires event in WalkEntries(fs, policy, dir, logical, ancestors, count)
    ensures i < count && event in WalkEntry(fs, policy, dir, logical, ancestors, fs.dirs[dir][i])
    decreases count
  {
    if event in WalkEntry(fs, policy, dir, logical, ancestors, fs.dirs[dir][count - 1]) {
      i := count - 1;
    } else {
      i := EntryOf(fs, policy, dir, logical, ancestors, count - 1, event);
    }
  }

  lemma {:induction false} WalkFinds(fs: FileSystem, policy: Policy, dir: Path, logical: Path, ancestors: set<Path>,
                                     route: Path, file: Path)
    requires Leads(fs, policy, dir, logical, ancestors, route, file)
    ensures Collected(logical + route, file) in Walk(fs, policy, dir, logical, ancestors)
    decreases |route|
  {
    var event := Collected(logical + route, file);
    var path := logical + [route[0]];
    var kind;
    if |route| == 1 {
      kind :| Lists(fs.dirs[dir], Entry(route[0], kind)) && StandsFor(fs, policy, dir, logical, Entry(route[0], kind),
                                                                      file);
      assert path == logical + route;
    } else {
      var next;
      kind, next :| Lists(fs.dirs[dir], Entry(route[0], kind))
          && Enters(fs, policy, dir, ancestors, Entry(route[0], kind), next)
                    && Leads(fs, policy, next, path, ancestors + {next}, route[1..], file);
      WalkFinds(fs, policy, next, path, ancestors + {next}, route[1..], file);
      assert logical + route == path + route[1..];
    }
    var i :| 0 <= i < |fs.dirs[dir]| && fs.dirs[dir][i] == Entry(route[0], kind);
    assert event in WalkEntry(fs, policy, dir, logical, ancestors, fs.dirs[dir][i]);
    EntriesInclude(fs, policy, dir, logical, ancestors, i, |fs.dirs[dir]|, event);
  }

  lemma {:induction false} FoundIsLed(fs: FileSystem, policy: Policy, dir: Path, logical: Path, ancestors: set<Path>,
                                      name: Path, file: Path)
    requires Collected(name, file) in Walk(fs, policy, dir, logical, ancestors)
    ensures logical <= name && Leads(fs, policy, dir, logical, ancestors, name[|logical|..], file)
    decreases |Unvisited(fs, ancestors)|, Room(fs, dir), 2, 0
  {
    var event := Collected(name, file);
    var i := EntryOf(fs, policy, dir, logical, ancestors, |fs.dirs[dir]|, event);
    var entry := fs.dirs[dir][i];
    assert Lists(fs.dirs[dir], entry);
    EntryIsLed(fs, policy, dir, logical, ancestors, entry, name, file);
  }

  lemma {:induction false} EntryIsLed(fs: FileSystem, policy: Policy, dir: Path, logical: Path, ancestors: set<Path>,
                                        entry: Entry, name: Path, file: Path)
    requires dir in fs.dirs && Lists(fs.dirs[dir], entry)
    requires Collected(name, file) in WalkEntry(fs, policy, dir, logical, ancestors, entry)
    ensures logical <= name && Leads(fs, policy, dir, logical, ancestors, name[|logical|..], file)
    decreases |Unvisited(fs, ancestors)|, Room(fs, dir), 0, 1
  {
    var path := logical + [entry.name];
    if name == path && StandsFor(fs, policy, dir, logical, entry, file) {
      assert name[|logical|..] == [entry.name] && logical + [entry.name] == name;
      assert Entry(entry.name, entry.kind) == entry;
    } else {
      var next := if entry.kind == Directory then dir + [entry.name] else entry.kind.target.value;
      if entry.kind == Directory {
        DescentDecreases(fs, ancestors, dir, entry.name);
      } else {
        LinkDecreases(fs, ancestors, dir, next);
      }
      FoundIsLed(fs, policy, next, path, ancestors + {next}, name, file);
      var route := name[|logical|..];
      assert path == name[..|path|];
      assert route[0] == entry.name && route[1..] == name[|path|..];
      assert Entry(route[0], entry.kind) == entry;
      assert Enters(fs, policy, dir, ancestors, entry, next);
    }
  }

  // A file is collected under a name if and only if following that name from the
  // root leads to it, through directories and permitted links that close no cycle.
  lemma CollectsExactly(fs: FileSystem, policy: Policy, name: Path, file: Path)
    ensures Collected(name, file) in CollectSpec(fs, policy)
            <==> Leads(fs, policy, policy.root, [], {policy.root}, name, file)
  {
    if Collected(name, file) in CollectSpec(fs, policy) {
      FoundIsLed(fs, policy, policy.root, [], {policy.root}, name, file);
      assert name[0..] == name;
    }
    if Leads(fs, policy, policy.root, [], {policy.root}, name, file) {
      WalkFinds(fs, policy, policy.root, [], {policy.root}, name, file);
      assert [] + name == name;
    }
  }

  // ---- Exactly what is reported ----

  predicate FileEvent(policy: Policy, logical: Path, physical: Path, event: Event) {
    || (policy.verdict(logical, physical) == Take && event == Collected(logical, physical))
    || (policy.verdict(logical, physical) == Refuse && event == Skipped(logical, FileRefused))
  }

  // What an owned entry of a directory is reported as, if the walk does not enter it.
  predicate OwnEvent(fs: FileSystem, policy: Policy, dir: Path, path: Path, ancestors: set<Path>, entry: Entry,
                     event: Event) {
    match entry.kind
    case Regular => FileEvent(policy, path, dir + [entry.name], event)
    case Directory => !policy.excluded(path) && policy.filtered(path) && event == Skipped(path, DirectoryFiltered)
    case Link(target) =>
      !policy.excluded(path) &&
      if policy.filtered(path) then event == Skipped(path, DirectoryFiltered)
      else if target.Some? && !Within(policy.root, target.value) && !policy.approved(target.value)
      then event == Skipped(path, UnapprovedLink)
      else if target.Some? && IsDir(fs, target.value)
      then target.value in ancestors && event == Skipped(path, LinkCycle)
      else if target.Some? && target.value in fs.files then FileEvent(policy, path, target.value, event)
      else event == Skipped(path, LinkUnavailable)
  }

  // Entering the directories of a route leads to the event: an entry reports it, or
  // the last directory cannot be read.
  ghost predicate Happens(fs: FileSystem, policy: Policy, dir: Path, logical: Path, ancestors: set<Path>, route: Path,
                          event: Event)
    decreases |route|
  {
    if route == [] then dir !in fs.dirs && event == Skipped(logical, WalkFailed)
    else
      && dir in fs.dirs && policy.owns(logical + [route[0]])
      && (|| (|route| == 1 && exists kind :: Lists(fs.dirs[dir], Entry(route[0], kind))
                                && OwnEvent(fs, policy, dir, logical + route, ancestors, Entry(route[0], kind), event))
          || (!Skips(policy, logical + [route[0]])
              && exists kind, next :: Lists(fs.dirs[dir], Entry(route[0], kind))
                   && Enters(fs, policy, dir, ancestors, Entry(route[0], kind), next)
                   && Happens(fs, policy, next, logical + [route[0]], ancestors + {next}, route[1..], event)))
  }

  lemma OwnEventIsReported(fs: FileSystem, policy: Policy, dir: Path, logical: Path, ancestors: set<Path>, entry: Entry,
                           event: Event)
    requires dir in fs.dirs && policy.owns(logical + [entry.name])
    requires OwnEvent(fs, policy, dir, logical + [entry.name], ancestors, entry, event)
    ensures event in WalkEntry(fs, policy, dir, logical, ancestors, entry)
  {
  }

  lemma EnteredIsReported(fs: FileSystem, policy: Policy, dir: Path, logical: Path, ancestors: set<Path>, entry: Entry,
                          next: Path)
    requires dir in fs.dirs && policy.owns(logical + [entry.name]) && !Skips(policy, logical + [entry.name])
    requires Enters(fs, policy, dir, ancestors, entry, next)
    ensures WalkEntry(fs, policy, dir, logical, ancestors, entry)
         == Walk(fs, policy, next, logical + [entry.name], ancestors + {next})
  {
  }

  lemma {:induction false} WalkReports(fs: FileSystem, policy: Policy, dir: Path, logical: Path, ancestors: set<Path>,
                                       route: Path, event: Event)
    requires Happens(fs, policy, dir, logical, ancestors, route, event)
    ensures event in Walk(fs, policy, dir, logical, ancestors)
    decreases |route|
  {
    if route != [] {
      var path := logical + [route[0]];
      var kind: Kind;
      if |route| == 1 && exists own :: Lists(fs.dirs[dir], Entry(route[0], own))
                           && OwnEvent(fs, policy, dir, logical + route, ancestors, Entry(route[0], own), event) {
        kind :| Lists(fs.dirs[dir], Entry(route[0], kind))
                && OwnEvent(fs, policy, dir, logical + route, ancestors, Entry(route[0], kind), event);
        assert route == [route[0]];
        OwnEventIsReported(fs, policy, dir, logical, ancestors, Entry(route[0], kind), event);
      } else {
        var next;
        kind, next :| Lists(fs.dirs[dir], Entry(route[0], kind))
                      && Enters(fs, policy, dir, ancestors, Entry(route[0], kind), next)
                      && Happens(fs, policy, next, path, ancestors + {next}, route[1..], event);
        WalkReports(fs, policy, next, path, ancestors + {next}, route[1..], event);
        EnteredIsReported(fs, policy, dir, logical, ancestors, Entry(route[0], kind), next);
      }
      var i :| 0 <= i < |fs.dirs[dir]| && fs.dirs[dir][i] == Entry(route[0], kind);
      EntriesInclude(fs, policy, dir, logical, ancestors, i, |fs.dirs[dir]|, event);
    }
  }

  lemma {:induction false} ReportedHappens(fs: FileSystem, policy: Policy, dir: Path, logical: Path,
                                           ancestors: set<Path>, event: Event)
    requires event in Walk(fs, policy, dir, logical, ancestors)
    ensures logical <= event.logical
    ensures Happens(fs, policy, dir, logical, ancestors, event.logical[|logical|..], event)
    decreases |Unvisited(fs, ancestors)|, Room(fs, dir), 2, 0
  {
    if dir in fs.dirs {
      var i := EntryOf(fs, policy, dir, logical, ancestors, |fs.dirs[dir]|, event);
      assert Lists(fs.dirs[dir], fs.dirs[dir][i]);
      EntryHappens(fs, policy, dir, logical, ancestors, fs.dirs[dir][i], event);
    }
  }

  lemma HappensHere(fs: FileSystem, policy: Policy, dir: Path, logical: Path, ancestors: set<Path>, entry: Entry,
                    event: Event)
    requires dir in fs.dirs && Lists(fs.dirs[dir], entry) && policy.owns(logical + [entry.name])
    requires OwnEvent(fs, policy, dir, logical + [entry.name], ancestors, entry, event)
    ensures logical <= event.logical
    ensures Happens(fs, policy, dir, logical, ancestors, event.logical[|logical|..], event)
  {
    var path := logical + [entry.name];
    assert event.logical == path && path[|logical|..] == [entry.name];
    assert logical + [entry.name] == path && Entry(entry.name, entry.kind) == entry;
  }

  lemma HappensThrough(fs: FileSystem, policy: Policy, dir: Path, logical: Path, ancestors: set<Path>, entry: Entry,
                       next: Path, event: Event)
    requires dir in fs.dirs && Lists(fs.dirs[dir], entry) && Enters(fs, policy, dir, ancestors, entry, next)
    requires var path := logical + [entry.name];
             && policy.owns(path) && !Skips(policy, path) && path <= event.logical
             && Happens(fs, policy, next, path, ancestors + {next}, event.logical[|path|..], event)
    ensures logical <= event.logical
    ensures Happens(fs, policy, dir, logical, ancestors, event.logical[|logical|..], event)
  {
    var path, route := logical + [entry.name], event.logical[|logical|..];
    assert path == event.logical[..|path|];
    assert route[0] == entry.name && route[1..] == event.logical[|path|..];
    assert Entry(route[0], entry.kind) == entry;
  }

  lemma EntryIsOwnOrEntered(fs: FileSystem, policy: Policy, dir: Path, logical: Path, ancestors: set<Path>,
                            entry: Entry, event: Event)
    requires dir in fs.dirs && event in WalkEntry(fs, policy, dir, logical, ancestors, entry)
    ensures var path := logical + [entry.name];
            policy.owns(path) &&
            (OwnEvent(fs, policy, dir, path, ancestors, entry, event)
             || (!Skips(policy, path) && !entry.kind.Regular? && (entry.kind.Link? ==> entry.kind.target.Some?)
                 && Enters(fs, policy, dir, ancestors, entry,
                           if entry.kind == Directory then dir + [entry.name] else entry.kind.target.value)))
  {
  }

  lemma {:induction false} EntryHappens(fs: FileSystem, policy: Policy, dir: Path, logical: Path, ancestors: set<Path>,
                                        entry: Entry, event: Event)
    requires dir in fs.dirs && Lists(fs.dirs[dir], entry)
    requires event in WalkEntry(fs, policy, dir, logical, ancestors, entry)
    ensures logical <= event.logical
    ensures Happens(fs, policy, dir, logical, ancestors, event.logical[|logical|..], event)
    decreases |Unvisited(fs, ancestors)|, Room(fs, dir), 0, 1
  {
    var path := logical + [entry.name];
    EntryIsOwnOrEntered(fs, policy, dir, logical, ancestors, entry, event);
    if OwnEvent(fs, policy, dir, path, ancestors, entry, event) {
      HappensHere(fs, policy, dir, logical, ancestors, entry, event);
    } else {
      var next := if entry.kind == Directory then dir + [entry.name] else entry.kind.target.value;
      EnteredIsReported(fs, policy, dir, logical, ancestors, entry, next);
      if entry.kind == Directory {
        DescentDecreases(fs, ancestors, dir, entry.name);
      } else {
        LinkDecreases(fs, ancestors, dir, next);
      }
      ReportedHappens(fs, policy, next, path, ancestors + {next}, event);
      HappensThrough(fs, policy, dir, logical, ancestors, entry, next, event);
    }
  }

  // Every event, collected or skipped, is reported if and only if its name leads to an
  // entry or an unreadable directory that it is about; and it says why.
  lemma ReportsExactly(fs: FileSystem, policy: Policy, event: Event)
    ensures event in CollectSpec(fs, policy) <==>
              Happens(fs, policy, policy.root, [], {policy.root}, event.logical, event)
  {
    if event in CollectSpec(fs, policy) {
      ReportedHappens(fs, policy, policy.root, [], {policy.root}, event);
      assert event.logical[0..] == event.logical;
    }
    if Happens(fs, policy, policy.root, [], {policy.root}, event.logical, event) {
      WalkReports(fs, policy, policy.root, [], {policy.root}, event.logical, event);
    }
  }

  // ---- The traversal of the source ----

  class Result {
    var events: seq<Event>

    constructor ()
      ensures events == []
    {
      events := [];
    }

    method WalkDirectory(fs: FileSystem, policy: Policy, dir: Path, logical: Path, ancestors: set<Path>)
      modifies this
      ensures events == old(events) + Walk(fs, policy, dir, logical, ancestors)
      decreases |Unvisited(fs, ancestors)|, Room(fs, dir), 2, 0
    {
      if dir !in fs.dirs {
        events := events + [Skipped(logical, WalkFailed)];
        return;
      }
      var entries := fs.dirs[dir];
      for i := 0 to |entries|
        invariant events == old(events) + WalkEntries(fs, policy, dir, logical, ancestors, i)
      {
        VisitEntry(fs, policy, dir, logical, ancestors, entries[i]);
      }
    }

    // The body of the loop.
    method VisitEntry(fs: FileSystem, policy: Policy, dir: Path, logical: Path, ancestors: set<Path>, entry: Entry)
      requires dir in fs.dirs
      modifies this
      ensures events == old(events) + WalkEntry(fs, policy, dir, logical, ancestors, entry)
      decreases |Unvisited(fs, ancestors)|, Room(fs, dir), 0, 1
    {
      var physical, path := dir + [entry.name], logical + [entry.name];
      if !policy.owns(path) {
        return;
      }
      if entry.kind.Regular? {
        CollectFile(policy, path, physical);
        return;
      }
      var skipped := SkipDirectoryPath(policy, path);
      if skipped {
        return;
      }
      match entry.kind
      case Link(target) =>
        WalkLink(fs, policy, dir, target, path, ancestors);
      case Directory =>
        DescentDecreases(fs, ancestors, dir, entry.name);
        WalkDirectory(fs, policy, physical, path, ancestors + {physical});
    }

    method SkipDirectoryPath(policy: Policy, path: Path) returns (skipped: bool)
      modifies this
      ensures skipped == Skips(policy, path)
      ensures events == if skipped then old(events) + SkipDirectory(policy, path) else old(events)
    {
      if policy.excluded(path) {
        return true;
      }
      if policy.filtered(path) {
        events := events + [Skipped(path, DirectoryFiltered)];
        return true;
      }
      skipped := false;
    }

    method WalkLink(fs: FileSystem, policy: Policy, ghost dir: Path, target: Option<Path>, path: Path,
                    ancestors: set<Path>)
      requires dir in fs.dirs
      modifies this
      ensures events == old(events) + FollowLink(fs, policy, dir, target, path, ancestors)
      decreases |Unvisited(fs, ancestors)|, Room(fs, dir), 0, 0
    {
      if target.None? {
        events := events + [Skipped(path, LinkUnavailable)];
        return;
      }
      var place := target.value;
      if !Within(policy.root, place) && !policy.approved(place) {
        events := events + [Skipped(path, UnapprovedLink)];
        return;
      }
      if !IsDir(fs, place) && place !in fs.files {
        events := events + [Skipped(path, LinkUnavailable)];
        return;
      }
      if !IsDir(fs, place) {
        CollectFile(policy, path, place);
        return;
      }
      if place in ancestors {
        events := events + [Skipped(path, LinkCycle)];
        return;
      }
      LinkDecreases(fs, ancestors, dir, place);
      WalkDirectory(fs, policy, place, path, ancestors + {place});
    }

    method CollectFile(policy: Policy, logical: Path, physical: Path)
      modifies this
      ensures events == old(events) + TakeFile(policy, logical, physical)
    {
      match policy.verdict(logical, physical) {
        case Ignore =>
        case Refuse => events := events + [Skipped(logical, FileRefused)];
        case Take => events := events + [Collected(logical, physical)];
      }
    }
  }
}
