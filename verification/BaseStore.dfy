// internal/state/base.go: the content-addressed store of merge bases. An index maps
// repository paths to digests, and the object of a digest is a file of that name.
module BaseStore {
  import opened Strings

  datatype Disk = Disk(index: map<string, string>, objects: map<string, string>)

  datatype Reading = Absent | Found(data: string) | ObjectMissing | Corrupt

  type Hash = string -> string

  // ---- Validation ----

  predicate IsDrivePath(path: string) {
    |path| >= 3 && ('A' <= path[0] <= 'Z' || 'a' <= path[0] <= 'z') && path[1] == ':' && path[2] == '/'
  }

  // A relative path with slashes and without empty, "." or ".." segments.
  predicate ValidPath(path: string) {
    && !IsBlank(path)
    && '\\' !in path && !IsDrivePath(path)
    && AllProper(Split(path, '/'))
  }

  predicate IsHexDigit(c: char) {
    '0' <= c <= '9' || 'a' <= c <= 'f' || 'A' <= c <= 'F'
  }

  predicate IsDigest(digest: string) {
    |digest| == 64 && forall i :: 0 <= i < |digest| ==> IsHexDigit(digest[i])
  }

  ghost predicate StartsAtDrive(path: string) {
    exists letter: char, rest: string ::
      path == [letter] + ":/" + rest && ('A' <= letter <= 'Z' || 'a' <= letter <= 'z')
  }

  lemma DriveExactly(path: string)
    ensures IsDrivePath(path) <==> StartsAtDrive(path)
  {
    if letter: char, rest: string :| path == [letter] + ":/" + rest && ('A' <= letter <= 'Z' || 'a' <= letter <= 'z') {
      assert path[0] == letter && path[1] == ':' && path[2] == '/';
    }
    if IsDrivePath(path) {
      assert path == [path[0]] + ":/" + path[3..];
    }
  }

  // The valid paths: made of proper segments without a backslash, with something to
  // see, and not on a drive.
  lemma ValidPathExactly(path: string)
    ensures ValidPath(path) <==>
              && (exists segments :: IsMadeOf(path, segments)) && '\\' !in path
              && (exists i :: 0 <= i < |path| && !IsSpace(path[i]))
              && !StartsAtDrive(path)
  {
    MadeOfExactly(path);
    DriveExactly(path);
  }

  lemma DigestExactly(digest: string)
    ensures IsDigest(digest) <==> |digest| == 64 && forall c :: c in digest ==> c in "0123456789abcdefABCDEF"
  {
    if IsDigest(digest) {
      forall c | c in digest
        ensures c in "0123456789abcdefABCDEF"
      {
        HexDigits(c);
      }
    }
    if |digest| == 64 && forall c :: c in digest ==> c in "0123456789abcdefABCDEF" {
      forall i | 0 <= i < |digest|
        ensures IsHexDigit(digest[i])
      {
        assert digest[i] in digest;
        HexDigits(digest[i]);
      }
    }
  }

  lemma HexDigits(c: char)
    ensures IsHexDigit(c) <==> c in "0123456789abcdefABCDEF"
  {
    var digits := "0123456789abcdefABCDEF";
    if IsHexDigit(c) {
      var i := if c <= '9' then c as int - '0' as int
               else if c <= 'F' then 16 + (c as int - 'A' as int) else 10 + (c as int - 'a' as int);
      assert digits[i] == c;
    }
  }

  predicate WellFormed(index: map<string, string>) {
    forall path :: path in index ==> ValidPath(path) && IsDigest(index[path])
  }

  ghost predicate Digests(hash: Hash) {
    forall data :: IsDigest(hash(data))
  }

  // No two of the contents that ever occur have the same digest.
  predicate CollisionFree(hash: Hash, known: set<string>) {
    forall one, other :: one in known && other in known && hash(one) == hash(other) ==> one == other
  }

  // ---- What the operations do to the disk ----

  // Reading checks that the object still has the digest that it is named after.
  function Read(hash: Hash, disk: Disk, path: string): Reading {
    if path !in disk.index then Absent
    else if disk.index[path] !in disk.objects then ObjectMissing
    else if hash(disk.objects[disk.index[path]]) != disk.index[path] then Corrupt
    else Found(disk.objects[disk.index[path]])
  }

  // Objects stay as they are, also damaged ones, and the new ones hold added contents
  // under their digests.
  predicate Grown(hash: Hash, before: map<string, string>, after: map<string, string>, added: set<string>) {
    && (forall digest :: digest in before ==> digest in after && after[digest] == before[digest])
    && (forall digest :: digest in after && digest !in before ==>
          after[digest] in added && hash(after[digest]) == digest)
  }

  predicate Holds(hash: Hash, objects: map<string, string>, added: set<string>) {
    forall data :: data in added ==> hash(data) in objects
  }

  // A step of the store, or damage from outside to one object.
  datatype Operation =
    | Put(path: string, data: string)
    | Delete(path: string)
    | Capture(repo: map<string, string>, snapshot: set<string>, preserve: set<string>)
    | Damage(digest: string, content: Option<string>)

  predicate CanCapture(repo: map<string, string>, snapshot: set<string>, preserve: set<string>) {
    forall path :: path in snapshot ==> ValidPath(path) && (path in preserve || path in repo)
  }

  // The operation is not refused.
  predicate Accepts(index: map<string, string>, op: Operation) {
    match op
    case Put(path, _) => ValidPath(path) && WellFormed(index)
    case Delete(path) => ValidPath(path) && WellFormed(index)
    case Capture(repo, snapshot, preserve) => CanCapture(repo, snapshot, preserve) && WellFormed(index)
    case Damage(_, _) => true
  }

  function Contents(op: Operation): set<string> {
    match op
    case Put(_, data) => {data}
    case Delete(_) => {}
    case Capture(repo, snapshot, preserve) => set path | path in snapshot - preserve && path in repo :: repo[path]
    case Damage(_, content) => if content.Some? then {content.value} else {}
  }

  // The paths and contents that an operation leaves behind, digests apart.
  function Expected(contents: map<string, string>, op: Operation): map<string, string> {
    match op
    case Put(path, data) => contents[path := data]
    case Delete(path) => contents - {path}
    case Capture(repo, snapshot, preserve) =>
      map path | path in contents.Keys + snapshot
                 && (if path in preserve then path in contents else path in snapshot && path in repo)
        :: if path in preserve then contents[path] else repo[path]
    case Damage(_, _) => contents
  }

  function NextIndex(hash: Hash, index: map<string, string>, op: Operation): map<string, string> {
    match op
    case Put(path, data) => index[path := hash(data)]
    case Delete(path) => index - {path}
    case Capture(repo, snapshot, preserve) =>
      map path | path in index.Keys + snapshot
                 && (if path in preserve then path in index else path in snapshot && path in repo)
        :: if path in preserve then index[path] else hash(repo[path])
    case Damage(_, _) => index
  }

  // An operation writes its objects first and the index last. One that is cut short
  // leaves the index as it was.
  predicate Follows(hash: Hash, before: Disk, op: Operation, completed: bool, after: Disk) {
    if op.Damage? then
      after == before.(objects := if op.content.Some? then before.objects[op.digest := op.content.value]
                                  else before.objects - {op.digest})
    else if !Accepts(before.index, op) then after == before
    else
      && Grown(hash, before.objects, after.objects, Contents(op))
      && (if completed then after.index == NextIndex(hash, before.index, op) && Holds(hash, after.objects, Contents(op))
          else after.index == before.index)
  }

  lemma GrownMore(hash: Hash, before: map<string, string>, middle: map<string, string>, after: map<string, string>,
                  data: string, added: set<string>)
    requires Grown(hash, before, middle, added) && Grown(hash, middle, after, {data}) && data in added
    ensures Grown(hash, before, after, added)
  {
  }

  lemma ReadContents(repo: map<string, string>, snapshot: set<string>, preserve: set<string>,
                     content: map<string, string>)
    requires content == map path | path in snapshot - preserve && path in repo :: repo[path]
    ensures content.Values == Contents(Capture(repo, snapshot, preserve))
  {
    forall data | data in Contents(Capture(repo, snapshot, preserve))
      ensures data in content.Values
    {
      var path :| path in snapshot - preserve && path in repo && repo[path] == data;
      assert content[path] == data;
    }
  }

  // The index entries while the objects of some paths are still to be stored.
  ghost predicate Entered(hash: Hash, content: map<string, string>, loaded: map<string, string>, paths: set<string>,
                          entries: map<string, string>) {
    forall path :: Lookup(entries, path) ==
      if path in content && path !in paths then Some(hash(content[path])) else Lookup(loaded, path)
  }

  lemma EnteredNext(hash: Hash, content: map<string, string>, loaded: map<string, string>, paths: set<string>,
                    entries: map<string, string>, path: string)
    requires Entered(hash, content, loaded, paths, entries) && path in paths && path in content
    ensures Entered(hash, content, loaded, paths - {path}, entries[path := hash(content[path])])
  {
    var next := entries[path := hash(content[path])];
    forall other: string
      ensures Lookup(next, other) == if other in content && other !in paths - {path} then Some(hash(content[other]))
              else Lookup(loaded, other)
    {
      assert Lookup(entries, other) == if other in content && other !in paths then Some(hash(content[other]))
          else Lookup(loaded, other);
    }
  }

  lemma CapturedIndex(hash: Hash, index: map<string, string>, repo: map<string, string>, snapshot: set<string>,
                      preserve: set<string>,
                      content: map<string, string>, entries: map<string, string>, kept: map<string, string>)
    requires content == map path | path in snapshot - preserve && path in repo :: repo[path]
    requires CanCapture(repo, snapshot, preserve) && Entered(hash, content, index, {}, entries)
    requires kept == map path | path in entries && (path in preserve || path in snapshot) :: entries[path]
    ensures kept == NextIndex(hash, index, Capture(repo, snapshot, preserve))
  {
    var expected := NextIndex(hash, index, Capture(repo, snapshot, preserve));
    forall path: string
      ensures Lookup(kept, path) == Lookup(expected, path)
    {
      assert Lookup(entries, path) == if path in content then Some(hash(content[path])) else Lookup(index, path);
    }
    LookupExtensional(kept, expected);
  }

  // ---- The store ----

  class Store {
    const hash: Hash
    var index: map<string, string>
    var objects: map<string, string>
    // Every state of the disk between two writes.
    ghost var passed: seq<Disk>

    ghost function Value(): Disk
      reads this
    {
      Disk(index, objects)
    }

    // Since the disk was like this, an operation has only been on its way.
    ghost predicate OnTheWay(start: nat, before: Disk, op: Operation)
      reads this
    {
      && start <= |passed|
      && forall i :: start <= i < |passed| ==>
           Follows(hash, before, op, false, passed[i]) || Follows(hash, before, op, true, passed[i])
    }

    method PutObject(data: string) returns (digest: string)
      modifies this`objects, this`passed
      ensures digest == hash(data) && Grown(hash, old(objects), objects, {data}) && digest in objects
      ensures passed == old(passed) + [Value()]
    {
      digest := hash(data);
      if digest !in objects {
        objects := objects[digest := data];
      }
      passed := passed + [Value()];
    }

    method LoadIndex() returns (loaded: Option<map<string, string>>)
      ensures loaded == if WellFormed(index) then Some(index) else None
    {
      var paths := index.Keys;
      while paths != {}
        invariant paths <= index.Keys
        invariant forall path :: path in index && path !in paths ==> ValidPath(path) && IsDigest(index[path])
        decreases paths
      {
        var path :| path in paths;
        if !ValidPath(path) || !IsDigest(index[path]) {
          return None;
        }
        paths := paths - {path};
      }
      loaded := Some(index);
    }

    method SaveIndex(newIndex: map<string, string>)
      modifies this`index, this`passed
      ensures index == newIndex && passed == old(passed) + [Value()]
    {
      index := newIndex;
      passed := passed + [Value()];
    }

    method Put(path: string, data: string) returns (ok: bool)
      modifies this
      ensures ok <==> Accepts(old(index), Operation.Put(path, data))
      ensures Follows(hash, old(Value()), Operation.Put(path, data), true, Value())
      ensures OnTheWay(|old(passed)|, old(Value()), Operation.Put(path, data))
    {
      if !ValidPath(path) {
        return false;
      }
      var loaded := LoadIndex();
      if loaded.None? {
        return false;
      }
      var digest := PutObject(data);
      SaveIndex(loaded.value[path := digest]);
      ok := true;
    }

    method Get(path: string) returns (ok: bool, reading: Reading)
      ensures ok <==> ValidPath(path) && WellFormed(index)
      ensures ok ==> reading == Read(hash, Value(), path)
    {
      ok, reading := false, Absent;
      if !ValidPath(path) {
        return;
      }
      var loaded := LoadIndex();
      if loaded.None? {
        return;
      }
      ok := true;
      if path !in loaded.value {
        return;
      }
      var digest := loaded.value[path];
      if digest !in objects {
        reading := ObjectMissing;
      } else if hash(objects[digest]) != digest {
        reading := Corrupt;
      } else {
        reading := Found(objects[digest]);
      }
    }

    method Delete(path: string) returns (ok: bool)
      modifies this
      ensures ok <==> Accepts(old(index), Operation.Delete(path))
      ensures Follows(hash, old(Value()), Operation.Delete(path), true, Value())
      ensures OnTheWay(|old(passed)|, old(Value()), Operation.Delete(path))
    {
      if !ValidPath(path) {
        return false;
      }
      var loaded := LoadIndex();
      if loaded.None? {
        return false;
      }
      ok := true;
      if path !in loaded.value {
        assert index - {path} == index;
        return;
      }
      SaveIndex(loaded.value - {path});
    }

    // The validation loop, and the reading of the files that are to be captured.
    method ReadFiles(repo: map<string, string>, snapshot: set<string>, preserve: set<string>)
      returns (content: Option<map<string, string>>)
      ensures content.Some? <==> CanCapture(repo, snapshot, preserve)
      ensures content.Some? ==> content.value == map path | path in snapshot - preserve && path in repo :: repo[path]
    {
      var paths, files := snapshot, map[];
      while paths != {}
        invariant paths <= snapshot && CanCapture(repo, snapshot - paths, preserve)
        invariant files == map path | path in snapshot - paths - preserve && path in repo :: repo[path]
        decreases paths
      {
        var path :| path in paths;
        if !ValidPath(path) || (path !in preserve && path !in repo) {
          return None;
        }
        if path !in preserve {
          files := files[path := repo[path]];
        }
        paths := paths - {path};
      }
      assert snapshot - paths == snapshot;
      content := Some(files);
    }

    // Since these objects, only objects for added contents have been written.
    ghost predicate Storing(start: nat, before: map<string, string>, added: set<string>)
      reads this
    {
      && start <= |passed| && Grown(hash, before, objects, added)
      && forall i :: start <= i < |passed| ==> passed[i].index == index && Grown(hash, before, passed[i].objects, added)
    }

    // One turn of the loop that stores the objects.
    method PutNext(data: string, ghost start: nat, ghost before: map<string, string>, ghost added: set<string>)
      returns (digest: string)
      requires Storing(start, before, added) && data in added
      modifies this`objects, this`passed
      ensures Storing(start, before, added) && digest == hash(data) && digest in objects
      ensures forall other :: other in old(objects) ==> other in objects
    {
      ghost var previous := objects;
      digest := PutObject(data);
      assert Grown(hash, before, objects, added) by {
        GrownMore(hash, before, previous, objects, data, added);
      }
    }

    // The loop that stores the objects, in whatever order.
    method PutObjects(content: map<string, string>, loaded: map<string, string>) returns (entries: map<string, string>)
      modifies this`objects, this`passed
      ensures Storing(|old(passed)|, old(objects), content.Values)
      ensures forall path :: path in content ==> hash(content[path]) in objects
      ensures Entered(hash, content, loaded, {}, entries)
    {
      entries := loaded;
      var paths := content.Keys;
      while paths != {}
        invariant paths <= content.Keys
        invariant Storing(|old(passed)|, old(objects), content.Values)
        invariant forall path :: path in content && path !in paths ==> hash(content[path]) in objects
        invariant Entered(hash, content, loaded, paths, entries)
        decreases paths
      {
        var path :| path in paths;
        var digest := PutNext(content[path], |old(passed)|, old(objects), content.Values);
        EnteredNext(hash, content, loaded, paths, entries, path);
        entries := entries[path := digest];
        paths := paths - {path};
      }
    }

    // The loop over the index that forgets the paths that left the repository.
    method Forget(entries: map<string, string>, snapshot: set<string>, preserve: set<string>)
      returns (kept: map<string, string>)
      ensures kept == map path | path in entries && (path in preserve || path in snapshot) :: entries[path]
    {
      kept := entries;
      var paths := entries.Keys;
      while paths != {}
        invariant paths <= entries.Keys
        invariant kept == map path | path in entries && (path in paths || path in preserve || path in snapshot) ::
                  entries[path]
        decreases paths
      {
        var path :| path in paths;
        if path !in preserve && path !in snapshot {
          kept := kept - {path};
        }
        paths := paths - {path};
      }
    }

    method CaptureRepoPreserving(repo: map<string, string>, snapshot: set<string>, preserve: set<string>)
      returns (ok: bool)
      modifies this
      ensures ok <==> Accepts(old(index), Capture(repo, snapshot, preserve))
      ensures Follows(hash, old(Value()), Capture(repo, snapshot, preserve), true, Value())
      ensures OnTheWay(|old(passed)|, old(Value()), Capture(repo, snapshot, preserve))
    {
      var content := ReadFiles(repo, snapshot, preserve);
      if content.None? {
        return false;
      }
      var loaded := LoadIndex();
      if loaded.None? {
        return false;
      }
      ReadContents(repo, snapshot, preserve, content.value);
      StoreAndIndex(content.value, Capture(repo, snapshot, preserve));
      ok := true;
    }

    // The part of CaptureRepoPreserving that writes.
    method StoreAndIndex(content: map<string, string>, op: Operation)
      requires op.Capture? && Accepts(index, op) && content.Values == Contents(op)
      requires content == map path | path in op.snapshot - op.preserve && path in op.repo :: op.repo[path]
      modifies this
      ensures Follows(hash, old(Value()), op, true, Value()) && OnTheWay(|old(passed)|, old(Value()), op)
    {
      var entries := PutObjects(content, index);
      var kept := Forget(entries, op.snapshot, op.preserve);
      CapturedIndex(hash, index, op.repo, op.snapshot, op.preserve, content, entries, kept);
      assert forall data :: data in content.Values ==> hash(data) in objects;
      SaveIndex(kept);
    }
  }

  // ---- Runs ----

  datatype Step = Step(op: Operation, completed: bool)

  // A run of operations, completed or cut short, and of damage from outside.
  ghost predicate IsRun(hash: Hash, disks: seq<Disk>, steps: seq<Step>) {
    && |disks| == |steps| + 1
    && forall i :: 0 <= i < |steps| ==> Follows(hash, disks[i], steps[i].op, steps[i].completed, disks[i + 1])
  }

  // What the paths should hold: the accepted and completed operations, digests apart.
  // Whether an operation is accepted depends on the index only through its validity.
  function Promised(contents: map<string, string>, steps: seq<Step>): map<string, string> {
    if steps == [] then contents
    else
      var front, step := Promised(contents, steps[..|steps| - 1]), steps[|steps| - 1];
      if step.completed && Accepts(map[], step.op) then Expected(front, step.op) else front
  }

  predicate AllKnown(steps: seq<Step>, known: set<string>) {
    forall i :: 0 <= i < |steps| ==> Contents(steps[i].op) <= known
  }

  // The index has the digests of the promised contents.
  ghost predicate Indexes(hash: Hash, disk: Disk, contents: map<string, string>) {
    WellFormed(disk.index) && forall path :: Lookup(disk.index, path) == DigestOf(hash, Lookup(contents, path))
  }

  function DigestOf(hash: Hash, data: Option<string>): Option<string> {
    if data.Some? then Some(hash(data.value)) else None
  }

  lemma NextIndexAt(hash: Hash, index: map<string, string>, contents: map<string, string>, op: Operation, path: string)
    requires Lookup(index, path) == DigestOf(hash, Lookup(contents, path))
    ensures Lookup(NextIndex(hash, index, op), path) == DigestOf(hash, Lookup(Expected(contents, op), path))
  {
  }

  lemma NextIndexWellFormed(hash: Hash, index: map<string, string>, op: Operation)
    requires Digests(hash) && Accepts(index, op) && WellFormed(index)
    ensures WellFormed(NextIndex(hash, index, op))
  {
  }

  lemma StepIndexes(hash: Hash, before: Disk, step: Step, after: Disk, contents: map<string, string>)
    requires Digests(hash) && Indexes(hash, before, contents) && Follows(hash, before, step.op, step.completed, after)
    ensures Indexes(hash, after, if step.completed && Accepts(map[], step.op) then Expected(contents, step.op)
                    else contents)
  {
    assert Accepts(before.index, step.op) == Accepts(map[], step.op);
    if step.completed && Accepts(before.index, step.op) {
      NextIndexWellFormed(hash, before.index, step.op);
      assert after.index == NextIndex(hash, before.index, step.op);
      forall path: string
        ensures Lookup(after.index, path) == DigestOf(hash, Lookup(Expected(contents, step.op), path))
      {
        NextIndexAt(hash, before.index, contents, step.op, path);
      }
    }
  }

  lemma {:induction false} RunIndexes(hash: Hash, disks: seq<Disk>, steps: seq<Step>, contents: map<string, string>)
    requires Digests(hash) && IsRun(hash, disks, steps) && Indexes(hash, disks[0], contents)
    ensures Indexes(hash, disks[|steps|], Promised(contents, steps))
  {
    if steps != [] {
      var n := |steps| - 1;
      RunIndexes(hash, disks[..|steps|], steps[..n], contents);
      assert Follows(hash, disks[n], steps[n].op, steps[n].completed, disks[n + 1]);
      StepIndexes(hash, disks[n], steps[n], disks[n + 1], Promised(contents, steps[..n]));
    }
  }

  lemma {:induction false} RunIsKnown(hash: Hash, known: set<string>, disks: seq<Disk>, steps: seq<Step>,
                                      contents: map<string, string>)
    requires IsRun(hash, disks, steps) && AllKnown(steps, known)
    requires contents.Values <= known && disks[0].objects.Values <= known
    ensures Promised(contents, steps).Values <= known && disks[|steps|].objects.Values <= known
  {
    if steps != [] {
      var n := |steps| - 1;
      assert AllKnown(steps[..n], known);
      RunIsKnown(hash, known, disks[..|steps|], steps[..n], contents);
      assert Follows(hash, disks[n], steps[n].op, steps[n].completed, disks[n + 1]);
      StepIsKnown(hash, known, disks[n], steps[n], disks[n + 1], Promised(contents, steps[..n]));
    }
  }

  lemma StepIsKnown(hash: Hash, known: set<string>, before: Disk, step: Step, after: Disk,
                    contents: map<string, string>)
    requires Follows(hash, before, step.op, step.completed, after) && Contents(step.op) <= known
    requires contents.Values <= known && before.objects.Values <= known
    ensures after.objects.Values <= known
    ensures Accepts(map[], step.op) ==> Expected(contents, step.op).Values <= known
  {
    if Accepts(map[], step.op) {
      forall path | path in Expected(contents, step.op)
        ensures Expected(contents, step.op)[path] in known
      {
        ExpectedIsKnown(contents, step.op, path);
      }
    }
  }

  lemma ExpectedIsKnown(contents: map<string, string>, op: Operation, path: string)
    requires path in Expected(contents, op)
    ensures Expected(contents, op)[path] in contents.Values + Contents(op)
  {
  }

  // Over every run, with operations cut short and objects damaged in any way: reading
  // gives the content that was last put or captured, and nothing else, exactly if the
  // object of that content is still there and intact; otherwise it says what is wrong.
  lemma ReadsExactly(hash: Hash, known: set<string>, disks: seq<Disk>, steps: seq<Step>,
                     contents: map<string, string>, path: string)
    requires Digests(hash) && CollisionFree(hash, known)
    requires IsRun(hash, disks, steps) && AllKnown(steps, known)
    requires Indexes(hash, disks[0], contents) && contents.Values <= known && disks[0].objects.Values <= known
    ensures var last, promised := disks[|steps|], Lookup(Promised(contents, steps), path);
            Read(hash, last, path)
            == if promised.None? then Absent
               else match Lookup(last.objects, hash(promised.value))
                    case None => ObjectMissing
                    case Some(stored) => if stored == promised.value then Found(stored) else Corrupt
  {
    var last := disks[|steps|];
    RunIndexes(hash, disks, steps, contents);
    RunIsKnown(hash, known, disks, steps, contents);
    assert Lookup(last.index, path) == DigestOf(hash, Lookup(Promised(contents, steps), path));
    if path in last.index && last.index[path] in last.objects {
      assert last.objects[last.index[path]] in last.objects.Values;
      assert Promised(contents, steps)[path] in Promised(contents, steps).Values;
    }
  }

  // ---- Runs without damage ----

  predicate Undamaged(steps: seq<Step>) {
    forall i :: 0 <= i < |steps| ==> !steps[i].op.Damage?
  }

  // Every object has the digest that it is named after, and no indexed one is missing.
  ghost predicate Sound(hash: Hash, disk: Disk) {
    && (forall digest :: digest in disk.objects ==> hash(disk.objects[digest]) == digest)
    && (forall path :: path in disk.index ==> disk.index[path] in disk.objects)
  }

  lemma StepKeepsSound(hash: Hash, before: Disk, step: Step, after: Disk)
    requires Follows(hash, before, step.op, step.completed, after) && Sound(hash, before) && !step.op.Damage?
    ensures Sound(hash, after)
    ensures forall digest :: digest in before.objects ==> Lookup(after.objects, digest) == Some(before.objects[digest])
  {
    if step.completed && Accepts(before.index, step.op) {
      forall path | path in after.index
        ensures after.index[path] in after.objects
      {
        NextDigest(hash, before.index, step.op, path);
      }
    }
  }

  lemma NextDigest(hash: Hash, index: map<string, string>, op: Operation, path: string)
    requires path in NextIndex(hash, index, op)
    ensures || (path in index && NextIndex(hash, index, op)[path] == index[path])
            || (exists data :: data in Contents(op) && NextIndex(hash, index, op)[path] == hash(data))
  {
    if op.Put? && op.path == path {
      assert op.data in Contents(op);
    } else if op.Capture? && path !in op.preserve {
      assert op.repo[path] in Contents(op);
    }
  }

  lemma {:induction false} RunKeepsSound(hash: Hash, disks: seq<Disk>, steps: seq<Step>)
    requires IsRun(hash, disks, steps) && Undamaged(steps) && Sound(hash, disks[0])
    ensures Sound(hash, disks[|steps|])
    ensures forall digest :: digest in disks[0].objects ==>
              Lookup(disks[|steps|].objects, digest) == Some(disks[0].objects[digest])
  {
    if steps != [] {
      var n := |steps| - 1;
      RunKeepsSound(hash, disks[..|steps|], steps[..n]);
      assert Follows(hash, disks[n], steps[n].op, steps[n].completed, disks[n + 1]);
      StepKeepsSound(hash, disks[n], steps[n], disks[n + 1]);
    }
  }

  // Without damage every path reads as promised, however many operations were cut
  // short; and every index that was ever saved stays readable, with the same contents.
  lemma UndamagedReads(hash: Hash, known: set<string>, disks: seq<Disk>, steps: seq<Step>,
                       contents: map<string, string>, path: string)
    requires Digests(hash) && CollisionFree(hash, known)
    requires IsRun(hash, disks, steps) && AllKnown(steps, known) && Undamaged(steps) && Sound(hash, disks[0])
    requires Indexes(hash, disks[0], contents) && contents.Values <= known && disks[0].objects.Values <= known
    ensures var promised := Lookup(Promised(contents, steps), path);
            Read(hash, disks[|steps|], path) == if promised.None? then Absent else Found(promised.value)
    ensures Read(hash, Disk(disks[0].index, disks[|steps|].objects), path) == Read(hash, disks[0], path)
  {
    RunKeepsSound(hash, disks, steps);
    RunIndexes(hash, disks, steps, contents);
    ReadsExactly(hash, known, disks, steps, contents, path);
    assert Lookup(disks[|steps|].index, path) == DigestOf(hash, Lookup(Promised(contents, steps), path));
  }

  // Putting a content again does not repair its object: it can be read back exactly if
  // its object was missing or intact.
  lemma PutReadsExactly(hash: Hash, before: Disk, path: string, data: string, after: Disk)
    requires Follows(hash, before, Put(path, data), true, after) && Accepts(before.index, Put(path, data))
    requires CollisionFree(hash, before.objects.Values + {data})
    ensures Read(hash, after, path) == Found(data) <==>
              hash(data) !in before.objects || before.objects[hash(data)] == data
    ensures Read(hash, after, path) == Found(data) || Read(hash, after, path) == Corrupt
  {
    assert data in Contents(Put(path, data));
    if hash(data) in before.objects {
      assert before.objects[hash(data)] in before.objects.Values;
    }
  }

  // What a pass of the engine relies on when it records its merge bases.
  lemma CaptureReads(hash: Hash, before: Disk, repo: map<string, string>, snapshot: set<string>,
                     preserve: set<string>, after: Disk, path: string)
    requires Follows(hash, before, Capture(repo, snapshot, preserve), true, after)
    requires Accepts(before.index, Capture(repo, snapshot, preserve)) && Sound(hash, before)
    requires CollisionFree(hash, before.objects.Values + Contents(Capture(repo, snapshot, preserve)))
    ensures Read(hash, after, path)
         == if path in preserve then Read(hash, before, path)
            else if path in snapshot then Found(repo[path])
            else Absent
  {
    var op := Capture(repo, snapshot, preserve);
    StepKeepsSound(hash, before, Step(op, true), after);
    if path !in preserve && path in snapshot {
      assert repo[path] in Contents(op);
      var digest := hash(repo[path]);
      if digest in before.objects {
        assert before.objects[digest] in before.objects.Values;
      }
    }
  }

  // And of a path whose file it has deleted, and of every other path.
  lemma DeleteReads(hash: Hash, before: Disk, path: string, after: Disk, other: string)
    requires Follows(hash, before, Delete(path), true, after) && Accepts(before.index, Delete(path))
    ensures Read(hash, after, other) == if other == path then Absent else Read(hash, before, other)
  {
  }

  // An operation is accepted if and only if its paths are valid, the files to capture
  // are there, and every entry of the index has a valid path and a digest.
  lemma AcceptedExactly(index: map<string, string>, op: Operation)
    ensures Accepts(index, op) <==>
              op.Damage? ||
              (&& (forall path :: path in index ==> ValidPath(path) && IsDigest(index[path]))
               && match op
                  case Put(path, _) => ValidPath(path)
                  case Delete(path) => ValidPath(path)
                  case Capture(repo, snapshot, preserve) =>
                    forall path :: path in snapshot ==> ValidPath(path) && (path in preserve || path in repo)
                  case Damage(_, _) => true)
  {
  }
}
