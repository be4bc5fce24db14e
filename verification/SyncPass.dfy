// internal/syncengine/engine.go: what one pass of syncOnce does, path by path.
module SyncPass {
  import opened Strings
  import opened Snapshots
  import opened Reconcile
  import opened ResourcePlanning
  import PortableMerge

  datatype Strategy = FileTree | TextTree | StructuredMerge | SourceTree | InstallManifest

  // An unresolved conflict: the three versions that could not be merged. A
  // missing version is stored as an empty file.
  datatype Bundle = Bundle(base: Content, local: Content, remote: Content)

  // A commit of the shared repository: its files, and its conflict bundles by
  // the canonical path they are about.
  datatype Tree = Tree(files: Snapshot, conflicts: map<string, Bundle>)

  // One machine: its resource files, its state.json and its store of merge bases.
  datatype Machine = Machine(local: Snapshot, state: Snapshot, store: Snapshot)

  datatype MergeResult = MergedContent(content: Content) | MergeConflict | MergeFailed

  // What a pass knows about a path: whether a configured resource owns it and
  // with which strategy, whether it is the repository's own metadata, whether an
  // issue skips, blocks or holds it, whether writing or removing its local file
  // fails this time, and how its text is merged. A structured document is put into
  // the local one, over the stored merge base: restore says what this machine's file
  // shares then, or fails.
  datatype Role = Role(
    owned: bool,
    internal: bool,
    skipped: bool,
    blocked: bool,
    held: bool,
    failing: bool,
    pendingInstall: bool,
    strategy: Strategy,
    textMerge: (Content, Content, Content) -> MergeResult,
    restore: (Option<Content>, Option<Content>, Content) -> Option<Content>)

  // rebase replays the commits of a clone, from the upstream tree that they sit on,
  // onto a newer upstream tree; git may fail to.
  datatype Env = Env(role: string -> Role, mode: FirstSyncMode, rebase: (Tree, Tree, Tree) -> Option<Tree>)

  // ---- Merging one file ----

  function Binary(base: Content, local: Content, remote: Content): MergeResult {
    if local == remote then MergedContent(local)
    else if local == base then MergedContent(remote)
    else if remote == base then MergedContent(local)
    else MergeConflict
  }

  function StructuredDocument(base: Content, local: Content, remote: Content): MergeResult {
    if base.Structured? && local.Structured? && remote.Structured? then
      match PortableMerge.MergeDocuments(base.document, local.document, remote.document)
      case MergedMap(document) => MergedContent(Structured(document))
      case MapConflict => MergeConflict
    else MergeFailed
  }

  // A structured file that both sides created is merged over an empty document;
  // any other merge needs all three versions.
  function MergeContents(role: Role, base: Option<Content>, local: Option<Content>,
                         remote: Option<Content>): MergeResult {
    if base.None? && local.Some? && remote.Some? && role.strategy == StructuredMerge then
      StructuredDocument(Structured(map[]), local.value, remote.value)
    else if base.None? || local.None? || remote.None? then MergeConflict
    else match role.strategy
      case StructuredMerge => StructuredDocument(base.value, local.value, remote.value)
      case TextTree => (role.textMerge)(base.value, local.value, remote.value)
      case _ => Binary(base.value, local.value, remote.value)
  }

  function Variant(content: Option<Content>): Content {
    if content.Some? then content.value else Bytes("")
  }

  // ---- One path in a plan ----

  function BaseView(role: Role, entry: Option<Content>): Option<Content> {
    if (role.owned || role.internal) && !role.skipped then entry else None
  }

  function LocalView(role: Role, local: Option<Content>, file: Option<Content>): Option<Content> {
    if role.skipped then None
    else if role.internal && file.Some? && !role.blocked then file
    else local
  }

  function RemoteView(role: Role, file: Option<Content>): Option<Content> {
    if role.blocked || ((role.owned || role.internal) && !role.skipped) then file else None
  }

  function KindOf(role: Role, mode: FirstSyncMode, entry: Option<Content>, local: Option<Content>,
                  file: Option<Content>): Option<ActionType> {
    var localView, remoteView := LocalView(role, local, file), RemoteView(role, file);
    match Decide(BaseView(role, entry), localView, remoteView, role.blocked)
    case None => None
    case Some(kind) => Some(FirstSyncKind(mode, kind, localView.Some?, remoteView.Some?))
  }

  // ---- One path in the apply loop ----

  // This machine's file, the repository's file and conflict, and whether the
  // path keeps its previous base.
  datatype Cell = Cell(local: Option<Content>, file: Option<Content>, conflict: Option<Bundle>, kept: bool)

  // What this machine's file shares after a content has been written into it, unless
  // that fails.
  function Receive(role: Role, stored: Option<Content>, local: Option<Content>, content: Content): Option<Content> {
    if role.failing then None
    else if role.strategy == StructuredMerge then (role.restore)(stored, local, content)
    else Some(content)
  }

  // The local file receives a content, or the path keeps its old base.
  function Received(role: Role, stored: Option<Content>, cell: Cell, content: Content): Cell {
    var received := Receive(role, stored, cell.local, content);
    if received.Some? then cell.(local := received) else cell.(kept := true)
  }

  function ActMerge(role: Role, stored: Option<Content>, cell: Cell): Cell {
    match MergeContents(role, stored, cell.local, cell.file)
    case MergeFailed => cell.(kept := true)
    case MergeConflict =>
      if cell.conflict.Some? then cell.(kept := true)
      else cell.(conflict := Some(Bundle(Variant(stored), Variant(cell.local), Variant(cell.file))), kept := true)
    case MergedContent(content) =>
      if role.strategy == InstallManifest then cell.(file := Some(content))
      else Received(role, stored, cell.(file := Some(content)), content)
  }

  function Act(role: Role, stored: Option<Content>, cell: Cell, kind: ActionType): Cell {
    var install := role.strategy == InstallManifest;
    if role.held then cell
    else if cell.conflict.Some? && kind != MergeBoth && kind != RemoveRemote then cell.(kept := true)
    else if kind == DeleteRemote && install && role.pendingInstall then cell.(kept := true)
    else match kind
      case MergeBoth => ActMerge(role, stored, cell)
      case PushToRemote => cell.(file := cell.local)
      case PullToLocal =>
        if install then cell
        else if cell.file.None? then cell.(kept := true)
        else Received(role, stored, cell, cell.file.value)
      case DeleteRemote =>
        if install then cell.(file := None)
        else if role.failing then cell.(file := None, kept := true)
        else cell.(file := None, local := None)
      case DeleteLocal =>
        if install then cell else if role.failing then cell.(kept := true) else cell.(local := None)
      case RemoveRemote => cell.(file := None)
  }

  // Everything a pass reads about a path.
  datatype PathState = PathState(local: Option<Content>, entry: Option<Content>, stored: Option<Content>,
                           file: Option<Content>, conflict: Option<Bundle>)

  function InitialCell(role: Role, before: PathState): Cell {
    Cell(before.local, before.file, before.conflict,
         before.conflict.Some? || role.held || (role.skipped && (role.owned || role.internal) && before.file.Some?))
  }

  // A planned push has a local file and a planned pull has a repository file.
  lemma KindInputs(role: Role, mode: FirstSyncMode, before: PathState)
    ensures KindOf(role, mode, before.entry, before.local, before.file) == Some(PushToRemote) ==> before.local.Some?
    ensures KindOf(role, mode, before.entry, before.local, before.file) == Some(PullToLocal) ==> before.file.Some?
  {
  }

  // A path with a conflict keeps its base, whether the conflict is old or new.
  lemma ConflictKept(role: Role, mode: FirstSyncMode, before: PathState)
    ensures CellAfter(role, mode, before).conflict.Some? ==> CellAfter(role, mode, before).kept
  {
  }

  // A path after the apply loop.
  function CellAfter(role: Role, mode: FirstSyncMode, before: PathState): Cell {
    match KindOf(role, mode, before.entry, before.local, before.file)
    case None => InitialCell(role, before)
    case Some(kind) => Act(role, before.stored, InitialCell(role, before), kind)
  }

  function Recorded(role: Role, cell: Cell): Option<Content> {
    if role.owned && !role.internal then cell.file else None
  }

  // The base entry and the stored merge base of a path after a completed pass: a
  // kept path goes back to what it had, any other takes what the repository holds.
  function EntryAfter(role: Role, mode: FirstSyncMode, before: PathState): Option<Content> {
    var cell := CellAfter(role, mode, before);
    if cell.kept then BaseView(role, before.entry) else Recorded(role, cell)
  }

  function StoredAfter(role: Role, mode: FirstSyncMode, before: PathState): Option<Content> {
    var cell := CellAfter(role, mode, before);
    if cell.kept then before.stored else Recorded(role, cell)
  }

  // ---- Whole passes ----

  function StateAt(machine: Machine, tree: Tree, path: string): PathState {
    PathState(Lookup(machine.local, path), Lookup(machine.state, path), Lookup(machine.store, path),
           Lookup(tree.files, path), Lookup(tree.conflicts, path))
  }

  function PassCell(env: Env, machine: Machine, tree: Tree, path: string): Cell {
    CellAfter(env.role(path), env.mode, StateAt(machine, tree, path))
  }

  function PassKind(env: Env, machine: Machine, tree: Tree, path: string): Option<ActionType> {
    KindOf(env.role(path), env.mode, Lookup(machine.state, path), Lookup(machine.local, path), Lookup(tree.files, path))
  }

  function Paths(machine: Machine, tree: Tree): set<string> {
    machine.local.Keys + machine.state.Keys + machine.store.Keys + tree.files.Keys + tree.conflicts.Keys
  }

  function LocalAfter(env: Env, machine: Machine, tree: Tree): Snapshot {
    Gather(Paths(machine, tree), path => PassCell(env, machine, tree, path).local)
  }

  function TreeAfter(env: Env, machine: Machine, tree: Tree): Tree {
    Tree(Gather(Paths(machine, tree), path => PassCell(env, machine, tree, path).file),
         Gather(Paths(machine, tree), path => PassCell(env, machine, tree, path).conflict))
  }

  function NextEntry(env: Env, machine: Machine, tree: Tree, path: string): Option<Content> {
    EntryAfter(env.role(path), env.mode, StateAt(machine, tree, path))
  }

  function NextStored(env: Env, machine: Machine, tree: Tree, path: string): Option<Content> {
    StoredAfter(env.role(path), env.mode, StateAt(machine, tree, path))
  }

  function MachineAfter(env: Env, machine: Machine, tree: Tree): Machine {
    Machine(LocalAfter(env, machine, tree),
            Gather(Paths(machine, tree), path => NextEntry(env, machine, tree, path)),
            Gather(Paths(machine, tree), path => NextStored(env, machine, tree, path)))
  }

  lemma NothingFromNothing(role: Role, mode: FirstSyncMode)
    ensures CellAfter(role, mode, PathState(None, None, None, None, None)) == Cell(None, None, None, role.held)
    ensures EntryAfter(role, mode, PathState(None, None, None, None, None)) == None
    ensures StoredAfter(role, mode, PathState(None, None, None, None, None)) == None
  {
  }

  // The maps after a pass hold, at every path, what the per-path rules say.
  lemma AfterAt(env: Env, machine: Machine, tree: Tree, path: string)
    ensures Lookup(LocalAfter(env, machine, tree), path) == PassCell(env, machine, tree, path).local
    ensures Lookup(TreeAfter(env, machine, tree).files, path) == PassCell(env, machine, tree, path).file
    ensures Lookup(TreeAfter(env, machine, tree).conflicts, path) == PassCell(env, machine, tree, path).conflict
    ensures Lookup(MachineAfter(env, machine, tree).state, path) == NextEntry(env, machine, tree, path)
    ensures Lookup(MachineAfter(env, machine, tree).store, path) == NextStored(env, machine, tree, path)
  {
    if path !in Paths(machine, tree) {
      NothingFromNothing(env.role(path), env.mode);
    }
  }

  lemma AfterIs(env: Env, machine: Machine, tree: Tree, local: Snapshot, files: Snapshot,
                conflicts: map<string, Bundle>)
    requires forall path :: Lookup(local, path) == PassCell(env, machine, tree, path).local
    requires forall path :: Lookup(files, path) == PassCell(env, machine, tree, path).file
    requires forall path :: Lookup(conflicts, path) == PassCell(env, machine, tree, path).conflict
    ensures local == LocalAfter(env, machine, tree) && Tree(files, conflicts) == TreeAfter(env, machine, tree)
  {
    forall path: string
      ensures Lookup(local, path) == Lookup(LocalAfter(env, machine, tree), path)
      ensures Lookup(files, path) == Lookup(TreeAfter(env, machine, tree).files, path)
      ensures Lookup(conflicts, path) == Lookup(TreeAfter(env, machine, tree).conflicts, path)
    {
      AfterAt(env, machine, tree, path);
    }
    LookupExtensional(local, LocalAfter(env, machine, tree));
    LookupExtensional(files, TreeAfter(env, machine, tree).files);
    LookupExtensional(conflicts, TreeAfter(env, machine, tree).conflicts);
  }

  lemma SavedIs(env: Env, machine: Machine, tree: Tree, saved: Machine)
    requires saved.local == LocalAfter(env, machine, tree)
    requires forall path :: Lookup(saved.state, path) == NextEntry(env, machine, tree, path)
    requires forall path :: Lookup(saved.store, path) == NextStored(env, machine, tree, path)
    ensures saved == MachineAfter(env, machine, tree)
  {
    forall path: string
      ensures Lookup(saved.state, path) == Lookup(MachineAfter(env, machine, tree).state, path)
      ensures Lookup(saved.store, path) == Lookup(MachineAfter(env, machine, tree).store, path)
    {
      AfterAt(env, machine, tree, path);
    }
    LookupExtensional(saved.state, MachineAfter(env, machine, tree).state);
    LookupExtensional(saved.store, MachineAfter(env, machine, tree).store);
  }

  // ---- Whole synchronizations ----

  // A machine's clone of the repository: the tree of its last commit, and the
  // upstream tree it last fetched. They differ while a commit has not been pushed.
  // A pull whose rebase runs into a conflict stops in the middle of it, and
  // nothing in the engine takes the clone out of that state again.
  datatype Clone = Clone(tree: Tree, upstream: Tree, stopped: bool)

  predicate NothingUnpushed(clone: Clone) {
    clone.tree == clone.upstream && !clone.stopped
  }

  datatype SyncResult = Synced(pushed: bool) | PushFailed | PullFailed

  datatype Outcome = Outcome(result: SyncResult, machine: Machine, clone: Clone, head: Tree)

  // git pull --rebase.
  function Pulled(env: Env, clone: Clone, head: Tree): Option<Tree> {
    if clone.stopped then None
    else if clone.tree == clone.upstream then Some(head)
    else env.rebase(clone.upstream, clone.tree, head)
  }

  // A whole SyncOnce, given the heads that other machines manage to push just
  // before this one. A rejected attempt keeps its local effects and starts over
  // from the head that won, or, as the last one, leaves its commit in the clone;
  // an accepted attempt, or one with nothing to commit, is saved.
  function SyncOutcome(env: Env, attempts: nat, machine: Machine, clone: Clone, head: Tree, races: seq<Tree>): Outcome
    decreases |races|
  {
    match Pulled(env, clone, head)
    case None => Outcome(PullFailed, machine, clone.(stopped := true), head)
    case Some(view) =>
      var next := TreeAfter(env, machine, view);
      if next == view then Outcome(Synced(false), MachineAfter(env, machine, view), Clone(view, head, false), head)
      else if races == [] then Outcome(Synced(true), MachineAfter(env, machine, view), Clone(next, next, false), next)
      else
        var retried := machine.(local := LocalAfter(env, machine, view));
        if attempts <= 1 then Outcome(PushFailed, retried, Clone(next, head, false), races[0])
        else SyncOutcome(env, attempts - 1, retried, Clone(races[0], races[0], false), races[0], races[1..])
  }
}
