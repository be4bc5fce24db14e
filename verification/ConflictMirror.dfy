// internal/conflict/store.go: creating conflict bundles on this computer and in the
// clone, and mirroring the clone's bundles to this computer after every pull.
module ConflictMirror {
  import opened Strings

  // A bundle: its record, and the three versions that could not be merged.
  datatype Bundle = Bundle(resource: string, path: string, created: int, base: string, local: string, remote: string)

  // Bundles by id.
  type Bundles = map<string, Bundle>

  // Whether a bundle under an id can be read: its record is valid and belongs to the
  // id, and the scanner lets its versions pass.
  type Reader = (string, Bundle) -> bool

  // The id is a digest of the path and the three versions, and of nothing else.
  type Namer = (string, string, string, string) -> string

  function IdOf(name: Namer, bundle: Bundle): string {
    name(bundle.path, bundle.base, bundle.local, bundle.remote)
  }

  // ---- Mirroring ----

  // The clone's bundle can be mirrored: it can be read, and this computer has none
  // under its id, or the very same.
  predicate Mirrors(readable: Reader, local: Bundles, id: string, bundle: Bundle) {
    readable(id, bundle) && (id in local ==> readable(id, local[id]) && local[id] == bundle)
  }

  predicate CanMirror(readable: Reader, local: Bundles, repo: Bundles, preserve: set<string>) {
    forall id :: id in repo && id !in preserve ==> Mirrors(readable, local, id, repo[id])
  }

  // Afterwards this computer has the clone's bundles, and its own ones where the
  // clone's have an issue.
  function Mirrored(local: Bundles, repo: Bundles, preserve: set<string>): Bundles {
    map id | id in local.Keys + repo.Keys && (if id in preserve then id in local else id in repo)
      :: if id in preserve then local[id] else repo[id]
  }

  // A mirroring that gives up has only added bundles of the clone.
  ghost predicate Added(before: Bundles, repo: Bundles, after: Bundles) {
    forall id :: Lookup(after, id) == Lookup(before, id) || (id !in before && Lookup(after, id) == Lookup(repo, id))
  }

  class Store {
    const readable: Reader
    var local: Bundles
    var repo: Bundles

    // Create: publishes the bundle on both sides, or on none.
    method Create(id: string, bundle: Bundle) returns (created: bool)
      modifies this
      ensures created <==> old(readable(id, bundle) && id !in local && id !in repo)
      ensures local == if created then old(local)[id := bundle] else old(local)
      ensures repo == if created then old(repo)[id := bundle] else old(repo)
    {
      if !readable(id, bundle) || id in local || id in repo {
        return false;
      }
      local := local[id := bundle];
      repo := repo[id := bundle];
      created := true;
    }

    // The loop over the clone's bundles, which gives up at the first that cannot be
    // mirrored.
    method CopyBundles(preserve: set<string>) returns (copied: bool)
      modifies this`local
      ensures copied <==> CanMirror(readable, old(local), repo, preserve)
      ensures Added(old(local), repo, local)
      ensures copied ==> forall id :: id in repo && id !in preserve ==> Lookup(local, id) == Some(repo[id])
      ensures copied ==> forall id :: id !in repo || id in preserve ==> Lookup(local, id) == Lookup(old(local), id)
    {
      var ids := repo.Keys - preserve;
      while ids != {}
        invariant ids <= repo.Keys - preserve
        invariant Added(old(local), repo, local)
        invariant forall id :: id in repo && id !in preserve && id !in ids ==>
                    Mirrors(readable, old(local), id, repo[id]) && Lookup(local, id) == Some(repo[id])
        invariant forall id :: id !in repo || id in preserve || id in ids ==>
                    Lookup(local, id) == Lookup(old(local), id)
        decreases ids
      {
        var id :| id in ids;
        assert Lookup(local, id) == Lookup(old(local), id);
        if !readable(id, repo[id]) || (id in local && (!readable(id, local[id]) || local[id] != repo[id])) {
          assert !Mirrors(readable, old(local), id, repo[id]);
          return false;
        }
        local := local[id := repo[id]];
        ids := ids - {id};
      }
      copied := true;
    }

    // The loop over this computer's bundles, which removes those that the clone does
    // not have.
    method RemoveBundles(preserve: set<string>)
      modifies this`local
      ensures forall id :: Lookup(local, id) == if id in preserve || id in repo then Lookup(old(local), id) else None
    {
      var ids := local.Keys;
      while ids != {}
        invariant ids <= old(local).Keys
        invariant forall id :: Lookup(local, id)
                    == if id in ids || id in preserve || id in repo then Lookup(old(local), id) else None
        decreases ids
      {
        var id :| id in ids;
        if id !in preserve && id !in repo {
          local := local - {id};
        }
        ids := ids - {id};
      }
    }

    method MirrorFromRepo(preserve: set<string>) returns (mirrored: bool)
      modifies this`local
      ensures mirrored <==> CanMirror(readable, old(local), repo, preserve)
      ensures if mirrored then local == Mirrored(old(local), repo, preserve) else Added(old(local), repo, local)
    {
      mirrored := CopyBundles(preserve);
      if !mirrored {
        return;
      }
      RemoveBundles(preserve);
      forall id: string
        ensures Lookup(local, id) == Lookup(Mirrored(old(local), repo, preserve), id)
      {
      }
      LookupExtensional(local, Mirrored(old(local), repo, preserve));
    }
  }

  // A mirrored clone can be mirrored again, and nothing changes.
  lemma MirrorsAgain(readable: Reader, local: Bundles, repo: Bundles, preserve: set<string>)
    requires CanMirror(readable, local, repo, preserve)
    ensures CanMirror(readable, Mirrored(local, repo, preserve), repo, preserve)
    ensures Mirrored(Mirrored(local, repo, preserve), repo, preserve) == Mirrored(local, repo, preserve)
  {
  }

  // ---- Calls that fail ----

  // Every call of the engine mirrors after its pull. These are this computer's bundles
  // after some calls, which pulled these clones: a call that cannot mirror ends there.
  ghost predicate Calls(readable: Reader, preserve: set<string>, states: seq<Bundles>, clones: seq<Bundles>) {
    && |states| == |clones| + 1
    && forall i :: 0 <= i < |clones| ==>
         if CanMirror(readable, states[i], clones[i], preserve)
         then states[i + 1] == Mirrored(states[i], clones[i], preserve)
         else Added(states[i], clones[i], states[i + 1])
  }

  // The clone has a bundle under the id that is not this computer's.
  predicate Disagrees(local: Bundles, clone: Bundles, id: string) {
    id in local && id in clone && clone[id] != local[id]
  }

  // One bundle that disagrees makes every call fail, and the calls change nothing
  // about it, as long as the repository keeps its own bundle.
  lemma {:induction false} DisagreementStays(readable: Reader, preserve: set<string>, states: seq<Bundles>,
                                             clones: seq<Bundles>, id: string)
    requires Calls(readable, preserve, states, clones) && id !in preserve
    requires forall i :: 0 <= i < |clones| ==> Disagrees(states[0], clones[i], id)
    ensures Lookup(states[|clones|], id) == Lookup(states[0], id)
    ensures forall i :: 0 <= i < |clones| ==> !CanMirror(readable, states[i], clones[i], preserve)
  {
    if clones != [] {
      var n := |clones| - 1;
      DisagreementStays(readable, preserve, states[..|clones|], clones[..n], id);
      assert Disagrees(states[0], clones[n], id);
      assert !Mirrors(readable, states[n], id, clones[n][id]);
    }
  }

  // It ends when the repository's conflict is resolved.
  lemma ResolvedEndsDisagreement(readable: Reader, local: Bundles, clone: Bundles, preserve: set<string>, id: string)
    requires id !in clone && id !in preserve && CanMirror(readable, local, clone, preserve)
    ensures id !in Mirrored(local, clone, preserve)
  {
  }

  // ---- Where it comes from ----

  // This computer creates a bundle on top of a clone that it agrees with; its push is
  // rejected because another computer has pushed its own bundle, and the clone is
  // reset to that.
  function Created(bundles: Bundles, name: Namer, bundle: Bundle): Bundles {
    bundles[IdOf(name, bundle) := bundle]
  }

  // If both are about the same path and the same three versions, they have the same
  // id, and the retry, like every later call, can mirror exactly if they were created
  // at the same moment for the same resource.
  lemma RetryCanMirrorExactly(readable: Reader, name: Namer, agreed: Bundles, mine: Bundle, theirs: Bundle)
    requires forall id: string, bundle: Bundle :: readable(id, bundle)
    requires IdOf(name, mine) !in agreed
    requires mine.path == theirs.path && mine.base == theirs.base && mine.local == theirs.local
             && mine.remote == theirs.remote
    ensures IdOf(name, theirs) == IdOf(name, mine)
    ensures CanMirror(readable, Created(agreed, name, mine), Created(agreed, name, theirs), {})
       <==> mine.created == theirs.created && mine.resource == theirs.resource
  {
    var local, clone, id := Created(agreed, name, mine), Created(agreed, name, theirs), IdOf(name, mine);
    if mine == theirs {
      forall other | other in clone
        ensures Mirrors(readable, local, other, clone[other])
      {
      }
    } else {
      assert !Mirrors(readable, local, id, clone[id]);
    }
  }

  // If they are about different versions, the retry takes this computer's bundle away
  // again and keeps the other.
  lemma RetryForgetsOwnBundle(readable: Reader, name: Namer, agreed: Bundles, mine: Bundle, theirs: Bundle)
    requires forall id: string, bundle: Bundle :: readable(id, bundle)
    requires IdOf(name, mine) !in agreed && IdOf(name, theirs) != IdOf(name, mine) && IdOf(name, theirs) !in agreed
    ensures var local, clone := Created(agreed, name, mine), Created(agreed, name, theirs);
            CanMirror(readable, local, clone, {}) && Mirrored(local, clone, {}) == clone
  {
    var local, clone := Created(agreed, name, mine), Created(agreed, name, theirs);
    forall other | other in clone
      ensures Mirrors(readable, local, other, clone[other])
    {
    }
    assert Mirrored(local, clone, {}) == clone;
  }
}
