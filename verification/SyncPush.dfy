// When a synchronization that reports success has published what it recorded.
module SyncPush {
  import opened Strings
  import opened SyncPass

  // A reported success means that the repository holds the tree that was recorded
  // as synchronized, if and only if the clone had nothing unpushed when it was
  // pulled, or this pass committed something on top: an unpushed commit of an
  // earlier synchronization is pushed along, but never on its own.
  lemma {:induction false} PublishedExactly(env: Env, attempts: nat, machine: Machine, clone: Clone, head: Tree,
                                            races: seq<Tree>)
    requires Pulled(env, clone, head).Some?
    ensures var outcome, view := SyncOutcome(env, attempts, machine, clone, head, races),
            Pulled(env, clone, head).value;
            outcome.result.Synced? ==>
              (outcome.head == outcome.clone.tree <==> view == head || TreeAfter(env, machine, view) != view)
    decreases |races|
  {
    var view := Pulled(env, clone, head).value;
    if TreeAfter(env, machine, view) != view && races != [] && attempts > 1 {
      var retried := machine.(local := LocalAfter(env, machine, view));
      PublishedExactly(env, attempts - 1, retried, Clone(races[0], races[0], false), races[0], races[1..]);
    }
  }

  // A clone that starts clean ends clean unless the call reports that it failed to
  // push, and with more attempts than competing pushes the call succeeds.
  predicate EndsClean(env: Env, attempts: nat, machine: Machine, head: Tree, races: seq<Tree>) {
    var outcome := SyncOutcome(env, attempts, machine, Clone(head, head, false), head, races);
    && (!NothingUnpushed(outcome.clone) ==> outcome.result == PushFailed)
    && (attempts > |races| ==> outcome.result.Synced?)
  }

  // The first push is rejected and another attempt follows.
  predicate Retries(env: Env, attempts: nat, machine: Machine, head: Tree, races: seq<Tree>) {
    TreeAfter(env, machine, head) != head && races != [] && attempts > 1
  }

  lemma EndsCleanAtOnce(env: Env, attempts: nat, machine: Machine, head: Tree, races: seq<Tree>)
    requires !Retries(env, attempts, machine, head, races)
    ensures EndsClean(env, attempts, machine, head, races)
  {
  }

  lemma EndsCleanLater(env: Env, attempts: nat, machine: Machine, head: Tree, races: seq<Tree>)
    requires Retries(env, attempts, machine, head, races)
    requires EndsClean(env, attempts - 1, machine.(local := LocalAfter(env, machine, head)), races[0], races[1..])
    ensures EndsClean(env, attempts, machine, head, races)
  {
  }

  lemma RetriesMore(env: Env, attempts: nat, machine: Machine, head: Tree, races: seq<Tree>)
    requires Retries(env, attempts, machine, head, races)
    ensures races != [] && attempts > 1
  {
  }

  lemma {:induction false} OnlyExhaustedAttemptsStayUnpushed(env: Env, attempts: nat, machine: Machine, head: Tree,
      races: seq<Tree>)
    ensures EndsClean(env, attempts, machine, head, races)
    decreases |races|
  {
    if Retries(env, attempts, machine, head, races) {
      RetriesMore(env, attempts, machine, head, races);
      OnlyExhaustedAttemptsStayUnpushed(env, attempts - 1, machine.(local := LocalAfter(env, machine, head)),
                                        races[0], races[1..]);
      EndsCleanLater(env, attempts, machine, head, races);
    } else {
      EndsCleanAtOnce(env, attempts, machine, head, races);
    }
  }

  // A pull whose rebase stopped makes every later call fail and change nothing.
  lemma StoppedForever(env: Env, attempts: nat, machine: Machine, clone: Clone, head: Tree, races: seq<Tree>)
    ensures Pulled(env, clone, head) == None ==> SyncOutcome(env, attempts, machine, clone, head, races).clone.stopped
    ensures clone.stopped ==>
              SyncOutcome(env, attempts, machine, clone, head, races) == Outcome(PullFailed, machine, clone, head)
  {
  }
}
