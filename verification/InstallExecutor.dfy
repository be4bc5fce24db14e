// internal/installplan: running the approved operations of an install plan, each
// at most once.
module InstallExecutor {
  import opened Strings

  datatype Operation = Operation(id: string, adapter: string, source: string, kind: string, executable: string,
                                 workingDir: string, args: seq<string>)

  datatype Plan = Plan(id: string, operations: seq<Operation>)

  const NUL := '\0'

  // The store's sets hold digests of these strings.
  function ApprovalKey(operation: Operation): string {
    operation.adapter + [NUL] + operation.source
  }

  function Identity(operation: Operation): seq<string> {
    [operation.adapter, operation.id, operation.source, operation.kind, operation.executable, operation.workingDir]
    + operation.args
  }

  function AppliedKey(operation: Operation): string {
    Join(Identity(operation), NUL)
  }

  // rejectShellSyntax: metacharacters, line breaks, NUL, or a command substitution.
  predicate HasShellSyntax(value: string) {
    || (exists i :: 0 <= i < |value| && value[i] in [';', '&', '|', '>', '<', '`', '\r', '\n', NUL])
    || (exists i :: 0 <= i < |value| && HasPrefix(value[i..], "$("))
  }

  lemma ShellSyntaxExactly(value: string)
    ensures HasShellSyntax(value) <==>
              || ';' in value || '&' in value || '|' in value || '>' in value || '<' in value || '`' in value
              || '\r' in value || '\n' in value || NUL in value
              || (exists before: string, after: string :: value == before + "$(" + after)
  {
    if before: string, after: string :| value == before + "$(" + after {
      assert value[|before|..] == "$(" + after;
    }
    if i :| 0 <= i < |value| && HasPrefix(value[i..], "$(") {
      assert value == value[..i] + "$(" + value[i + 2..];
    }
  }

  // Approving an operation approves its source for its adapter and nothing else;
  // the adapters that validation lets through hold no NUL.
  lemma ApprovalKeyIdentifies(one: Operation, other: Operation)
    requires NUL !in one.adapter && NUL !in other.adapter
    ensures ApprovalKey(one) == ApprovalKey(other) <==> one.adapter == other.adapter && one.source == other.source
  {
    var left, right := ApprovalKey(one), ApprovalKey(other);
    assert forall i :: 0 <= i < |one.adapter| ==> left[i] == one.adapter[i] != NUL;
    assert forall i :: 0 <= i < |other.adapter| ==> right[i] == other.adapter[i] != NUL;
    assert left[|one.adapter|] == NUL && right[|other.adapter|] == NUL;
    if left == right {
      assert left[..|one.adapter|] == one.adapter && right[..|other.adapter|] == other.adapter;
      assert left[|one.adapter| + 1..] == one.source && right[|other.adapter| + 1..] == other.source;
    }
  }

  // No field holds a NUL, which no adapter, path or argument of a command can.
  predicate IsPlain(operation: Operation) {
    forall field :: field in Identity(operation) ==> NUL !in field
  }

  // Operations share their applied identity, if and only if they are the same in
  // everything: a command that has run is never taken for another one.
  lemma AppliedKeyIdentifies(one: Operation, other: Operation)
    requires IsPlain(one) && IsPlain(other)
    ensures AppliedKey(one) == AppliedKey(other) <==> one == other
  {
    SplitJoin(Identity(one), NUL);
    SplitJoin(Identity(other), NUL);
    if Identity(one) == Identity(other) {
      assert one.args == Identity(one)[6..] && other.args == Identity(other)[6..];
      assert one.adapter == Identity(one)[0] && other.adapter == Identity(other)[0];
      assert one.id == Identity(one)[1] && other.id == Identity(other)[1];
      assert one.source == Identity(one)[2] && other.source == Identity(other)[2];
      assert one.kind == Identity(one)[3] && other.kind == Identity(other)[3];
      assert one.executable == Identity(one)[4] && other.executable == Identity(other)[4];
      assert one.workingDir == Identity(one)[5] && other.workingDir == Identity(other)[5];
    }
  }

  // ---- What becomes of each operation of a plan ----

  datatype Fate = AlreadyApplied | Unapproved | Succeeded | FailedToRun

  // The runner's answers, by position in the plan.
  type Answers = nat -> bool

  function FateAt(operations: seq<Operation>, applied: set<string>, approvals: set<string>, answers: Answers,
                  i: nat): Fate
    requires i < |operations|
    decreases i
  {
    if AppliedKey(operations[i]) in applied || RanBefore(operations, applied, approvals, answers, i,
                                                         AppliedKey(operations[i])) then AlreadyApplied
    else if ApprovalKey(operations[i]) !in approvals then Unapproved
    else if answers(i) then Succeeded
    else FailedToRun
  }

  predicate MayRun(operations: seq<Operation>, applied: set<string>, approvals: set<string>, answers: Answers, i: nat)
    requires i < |operations|
  {
    FateAt(operations, applied, approvals, answers, i) in {Succeeded, FailedToRun}
  }

  // An earlier operation of the plan with the same identity has succeeded.
  predicate RanBefore(operations: seq<Operation>, applied: set<string>, approvals: set<string>, answers: Answers,
                      i: nat, key: string)
    requires i <= |operations|
    decreases i, 0
  {
    exists j: nat :: j < i && AppliedKey(operations[j]) == key
        && FateAt(operations, applied, approvals, answers, j) == Succeeded
  }

  // An earlier operation with this identity is approved, and its command succeeds.
  predicate HasSucceeded(operations: seq<Operation>, approvals: set<string>, answers: Answers, i: nat)
    requires i < |operations|
  {
    exists j: nat :: j < i && AppliedKey(operations[j]) == AppliedKey(operations[i])
                     && ApprovalKey(operations[j]) in approvals && answers(j)
  }

  // An operation runs, if and only if it is approved and its identity has not succeeded
  // before, in this plan or ever; the runner's answer is then its fate.
  lemma FatesAre(operations: seq<Operation>, applied: set<string>, approvals: set<string>, answers: Answers, i: nat)
    requires i < |operations|
    ensures var fate := FateAt(operations, applied, approvals, answers, i);
            var done := AppliedKey(operations[i]) in applied || HasSucceeded(operations, approvals, answers, i);
            var approved := ApprovalKey(operations[i]) in approvals;
            && (fate == AlreadyApplied <==> done)
            && (fate == Unapproved <==> !done && !approved)
            && (fate == Succeeded <==> !done && approved && answers(i))
            && (fate == FailedToRun <==> !done && approved && !answers(i))
  {
    var key := AppliedKey(operations[i]);
    if key !in applied && HasSucceeded(operations, approvals, answers, i) {
      var j: nat :| j < i && AppliedKey(operations[j]) == key && ApprovalKey(operations[j]) in approvals && answers(j);
      if FateAt(operations, applied, approvals, answers, j) != Succeeded {
        assert RanBefore(operations, applied, approvals, answers, j, key);
      }
      assert RanBefore(operations, applied, approvals, answers, i, key);
    }
    if RanBefore(operations, applied, approvals, answers, i, key) {
      var j: nat :| j < i && AppliedKey(operations[j]) == key
                    && FateAt(operations, applied, approvals, answers, j) == Succeeded;
      assert ApprovalKey(operations[j]) in approvals && answers(j);
    }
  }

  // The operations with one of some fates, in plan order.
  function Picked(operations: seq<Operation>, applied: set<string>, approvals: set<string>, answers: Answers,
                  fates: set<Fate>, count: nat): seq<Operation>
    requires count <= |operations|
  {
    if count == 0 then []
    else
      var rest := Picked(operations, applied, approvals, answers, fates, count - 1);
      if FateAt(operations, applied, approvals, answers, count - 1) in fates then rest + [operations[count - 1]]
          else rest
  }

  const TO_DO := {Unapproved, FailedToRun}

  // Nothing is dropped and nothing is invented: the operations are exactly those
  // already applied, those executed and those left pending.
  lemma {:induction false} PlanIsSplit(operations: seq<Operation>, applied: set<string>, approvals: set<string>,
                                       answers: Answers, count: nat)
    requires count <= |operations|
    ensures multiset(operations[..count])
         == multiset(Picked(operations, applied, approvals, answers, {AlreadyApplied}, count))
            + multiset(Picked(operations, applied, approvals, answers, {Succeeded}, count))
            + multiset(Picked(operations, applied, approvals, answers, TO_DO, count))
  {
    if count > 0 {
      PlanIsSplit(operations, applied, approvals, answers, count - 1);
      assert operations[..count] == operations[..count - 1] + [operations[count - 1]];
      PickedNext(operations, applied, approvals, answers, {AlreadyApplied}, count);
      PickedNext(operations, applied, approvals, answers, {Succeeded}, count);
      PickedNext(operations, applied, approvals, answers, TO_DO, count);
    }
  }

  lemma PickedNext(operations: seq<Operation>, applied: set<string>, approvals: set<string>, answers: Answers,
                   fates: set<Fate>, count: nat)
    requires 0 < count <= |operations|
    ensures multiset(Picked(operations, applied, approvals, answers, fates, count))
         == multiset(Picked(operations, applied, approvals, answers, fates, count - 1))
            + if FateAt(operations, applied, approvals, answers, count - 1) in fates
                then multiset{operations[count - 1]} else multiset{}
  {
  }

  // ---- The store and the executor ----

  datatype Run = Run(operation: Operation, succeeded: bool)

  datatype ExecutionResult = Result(executed: seq<Operation>, pending: seq<Operation>) | Rejected | Aborted

  class Store {
    var approvals: set<string>
    var applied: set<string>
    var pending: Option<Plan>
    // Every command that was ever run.
    ghost var log: seq<Run>

    // Over every sequence of calls: nothing ran unapproved, every success is
    // recorded, and no operation identity succeeded twice.
    ghost predicate Valid()
      reads this
    {
      && (forall i :: 0 <= i < |log| ==> ApprovalKey(log[i].operation) in approvals)
      && (forall i :: 0 <= i < |log| && log[i].succeeded ==> AppliedKey(log[i].operation) in applied)
      && (forall i, j :: 0 <= i < j < |log| && log[i].succeeded && log[j].succeeded ==>
            AppliedKey(log[i].operation) != AppliedKey(log[j].operation))
    }

    constructor ()
      ensures Valid() && log == [] && approvals == {} && applied == {} && pending == None
    {
      approvals, applied, pending, log := {}, {}, None, [];
    }

    method Approve(operation: Operation) returns (accepted: bool)
      requires Valid()
      modifies this
      ensures Valid()
      ensures accepted <==> operation.adapter != "" && operation.source != "" && !HasShellSyntax(operation.source)
      ensures approvals == if accepted then old(approvals) + {ApprovalKey(operation)} else old(approvals)
      ensures applied == old(applied) && pending == old(pending) && log == old(log)
    {
      if operation.adapter == "" || operation.source == "" {
        return false;
      }
      if HasShellSyntax(operation.source) {
        return false;
      }
      approvals := approvals + {ApprovalKey(operation)};
      accepted := true;
    }

    method ClearPending(id: string)
      requires Valid()
      modifies `pending
      ensures Valid()
      ensures pending == if old(pending).Some? && old(pending).value.id == id then None else old(pending)
    {
      if pending.None? || pending.value.id != id {
        return;
      }
      pending := None;
    }

    // Runs one approved operation and records its success.
    method RunOne(operation: Operation, succeeds: bool)
      requires Valid() && ApprovalKey(operation) in approvals && AppliedKey(operation) !in applied
      modifies `applied, `log
      ensures Valid() && log == old(log) + [Run(operation, succeeds)]
      ensures applied == if succeeds then old(applied) + {AppliedKey(operation)} else old(applied)
    {
      log := log + [Run(operation, succeeds)];
      if succeeds {
        applied := applied + {AppliedKey(operation)};
      }
    }

    // The loop of Execute; it stops at the first operation that BeforeRun refuses.
    method RunAll(operations: seq<Operation>, ready: nat -> bool, answers: Answers)
      returns (executed: seq<Operation>, left: seq<Operation>, aborted: bool)
      requires Valid()
      modifies `applied, `log
      ensures Valid() && old(log) <= log
      ensures !aborted ==>
                && executed == Picked(operations, old(applied), approvals, answers, {Succeeded}, |operations|)
                && left == Picked(operations, old(applied), approvals, answers, TO_DO, |operations|)
                && (forall key :: key in applied <==>
                      key in old(applied) || RanBefore(operations, old(applied), approvals, answers, |operations|, key))
      ensures aborted ==> exists i: nat ::
                i < |operations| && !ready(i) && MayRun(operations, old(applied), approvals, answers, i)
    {
      executed, left, aborted := [], [], false;
      for i := 0 to |operations|
        invariant Valid() && old(log) <= log
        invariant executed == Picked(operations, old(applied), approvals, answers, {Succeeded}, i)
        invariant left == Picked(operations, old(applied), approvals, answers, TO_DO, i)
        invariant forall key :: key in applied <==>
                    key in old(applied) || RanBefore(operations, old(applied), approvals, answers, i, key)
      {
        var operation := operations[i];
        if AppliedKey(operation) in applied {
          continue;
        }
        if ApprovalKey(operation) !in approvals {
          left := left + [operation];
          continue;
        }
        if !ready(i) {
          return executed, left, true;
        }
        RunOne(operation, answers(i));
        if answers(i) {
          executed := executed + [operation];
        } else {
          left := left + [operation];
        }
      }
    }

    // Execute: refuses the whole plan if any operation is not trusted; otherwise
    // runs what it may and keeps the rest as the pending plan.
    method Execute(plan: Plan, trusted: Operation -> bool, ready: nat -> bool, answers: Answers)
      returns (result: ExecutionResult)
      requires Valid()
      modifies `applied, `pending, `log
      ensures Valid() && old(log) <= log
      ensures result.Rejected? <==> exists i :: 0 <= i < |plan.operations| && !trusted(plan.operations[i])
      ensures result.Rejected? || result.Aborted? ==> pending == old(pending)
      ensures result.Rejected? ==> log == old(log) && applied == old(applied)
      ensures result.Result? ==>
                && result.executed == Picked(plan.operations, old(applied), approvals, answers, {Succeeded},
                                             |plan.operations|)
                && result.pending == Picked(plan.operations, old(applied), approvals, answers, TO_DO, |plan.operations|)
                && pending == if result.pending != [] then Some(Plan(plan.id, result.pending))
                              else if plan.id != "" && old(pending).Some? && old(pending).value.id == plan.id then None
                              else old(pending)
    {
      for i := 0 to |plan.operations|
        invariant forall j :: 0 <= j < i ==> trusted(plan.operations[j])
      {
        if !trusted(plan.operations[i]) {
          return Rejected;
        }
      }
      var executed, left, aborted := RunAll(plan.operations, ready, answers);
      if aborted {
        return Aborted;
      }
      result := Result(executed, left);
      if left != [] {
        pending := Some(Plan(plan.id, left));
      } else if plan.id != "" {
        ClearPending(plan.id);
      }
    }
  }
}
