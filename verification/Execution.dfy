/** One execution session: forward run, interruption, recovery and rollback. */
module Execution {
  import opened Paths
  import opened FileTree

  datatype OperationStatus =
    PreflightOk | Blocked | Running | Applied | Recovered | Failed | RollingBack | RolledBack | RollbackBlocked

  /** `stage` marks an internal staging move; `dependencies` are operation ids. */
  datatype Operation = Operation(id: nat, step: Step, stage: bool, dependencies: set<nat>, status: OperationStatus)

  datatype SessionStatus =
    | Approved | Paused | Cancelled | Stopped | Partial | Completed
    | RecoveryRequired | RecoveryAvailable | RecoveryAmbiguous | RollbackPartial | Restored

  datatype Control = Proceed | Pause | Cancel

  /** What the worker does with a dispatched primitive whose preconditions hold: perform
      it, prove that it did nothing, or be lost before or after the mutation. */
  datatype Dispatch = Performed | Refused | LostBefore | LostAfter

  datatype Observation = NotStarted | Done | Ambiguous

  predicate IsApplied(status: OperationStatus) {
    status.Applied? || status.Recovered?
  }

  /** Statuses whose step is in effect on disk. */
  predicate InEffect(status: OperationStatus) {
    IsApplied(status) || status.RollbackBlocked?
  }

  predicate IsPending(status: OperationStatus) {
    status.Running? || status.RollingBack?
  }

  function StepsInEffect(operations: seq<Operation>): seq<Step> {
    if operations == [] then []
    else (if InEffect(operations[0].status) then [operations[0].step] else []) + StepsInEffect(operations[1..])
  }

  lemma {:induction false} NoneInEffect(operations: seq<Operation>)
    requires forall k | 0 <= k < |operations| :: !InEffect(operations[k].status)
    ensures StepsInEffect(operations) == []
  {
    if operations != [] {
      NoneInEffect(operations[1..]);
    }
  }

  /** With nothing in effect after `k`, turning operation `k` on or off extends or cuts the
      list at its end. */
  lemma {:induction false} LastInEffect(operations: seq<Operation>, k: nat, on: Operation, off: Operation)
    requires k < |operations| && InEffect(on.status) && !InEffect(off.status)
    requires forall j | k < j < |operations| :: !InEffect(operations[j].status)
    ensures StepsInEffect(operations[k := on]) == StepsInEffect(operations[k := off]) + [on.step]
  {
    if k == 0 {
      assert operations[0 := on][1..] == operations[1..] == operations[0 := off][1..];
      NoneInEffect(operations[1..]);
    } else {
      assert operations[k := on][1..] == operations[1..][k - 1 := on];
      assert operations[k := off][1..] == operations[1..][k - 1 := off];
      LastInEffect(operations[1..], k - 1, on, off);
    }
  }

  lemma {:induction false} SameInEffect(a: seq<Operation>, b: seq<Operation>)
    requires |a| == |b|
    requires forall k | 0 <= k < |a| :: a[k].step == b[k].step && (InEffect(a[k].status) <==> InEffect(b[k].status))
    ensures StepsInEffect(a) == StepsInEffect(b)
  {
    if a != [] {
      SameInEffect(a[1..], b[1..]);
    }
  }

  /** `observe_recovery`: what the disk says about an interrupted forward step. */
  function ObserveForward(t: Tree, step: Step): Observation {
    match step
    case CreateDirectory(p) => if p !in t then NotStarted else if t[p].Directory? then Done else Ambiguous
    case RemoveDirectoryIfEmpty(p) => if p !in t then Done else if t[p].Directory? then NotStarted else Ambiguous
    case Move(s, d, expected) =>
      if s in t && t[s] == File(expected) && d !in t then NotStarted
      else if d in t && t[d] == File(expected) && s !in t then Done
      else Ambiguous
  }

  /** `observe_rollback_recovery`: the same for an interrupted rollback step. */
  function ObserveBackward(t: Tree, step: Step): Observation {
    match step
    case CreateDirectory(p) => if p !in t then Done else if t[p].Directory? then NotStarted else Ambiguous
    case RemoveDirectoryIfEmpty(p) => if p !in t then NotStarted else if t[p].Directory? then Done else Ambiguous
    case Move(s, d, expected) =>
      if d in t && t[d] == File(expected) && s !in t then NotStarted
      else if s in t && t[s] == File(expected) && d !in t then Done
      else Ambiguous
  }

  /** Recovery tells the two sides of an accepted mutation apart, in both directions. */
  lemma ObservationIsExact(t: Tree, step: Step)
    requires Apply(step, t).Some?
    ensures ObserveForward(t, step) == NotStarted && ObserveForward(Apply(step, t).value, step) == Done
    ensures ObserveBackward(Apply(step, t).value, step) == NotStarted && ObserveBackward(t, step) == Done
  {
  }

  /** The disk is the starting tree with exactly the recorded operations in effect. */
  ghost predicate Explains(origin: Tree, operations: seq<Operation>, tree: Tree) {
    WellFormed(origin) && Replay(StepsInEffect(operations), origin) == Some(tree)
  }

  ghost predicate Quiet(operations: seq<Operation>) {
    forall k | 0 <= k < |operations| :: !IsPending(operations[k].status)
  }

  /** Operation `k` was dispatched and its outcome is unknown: the disk is on one of the
      two sides of its step, and nothing later is in effect. */
  ghost predicate PendingAt(origin: Tree, operations: seq<Operation>, tree: Tree, k: nat) {
    && k < |operations| && IsPending(operations[k].status) && WellFormed(origin)
    && (forall j | 0 <= j < |operations| && j != k :: !IsPending(operations[j].status))
    && (forall j | 0 <= j < |operations| :: operations[j].status != RollbackBlocked)
    && (forall j | k < j < |operations| :: !InEffect(operations[j].status))
    && Replay(StepsInEffect(operations), origin).Some?
    && var before := Replay(StepsInEffect(operations), origin).value;
       Apply(operations[k].step, before).Some? && (tree == before || Some(tree) == Apply(operations[k].step, before))
  }

  /** Staging moves and the moves that wait for them: pausing inside the group would
      leave a file in the staging area. */
  predicate InCycleGroup(operations: seq<Operation>, k: nat)
    requires k < |operations|
  {
    && operations[k].status != Blocked
    && (operations[k].stage || exists j | 0 <= j < |operations| ::
          operations[j].stage && operations[j].status != Blocked && operations[j].id in operations[k].dependencies)
  }

  ghost predicate CycleGroupIs(operations: seq<Operation>, a: nat, b: nat) {
    && a <= b <= |operations|
    && (forall k | 0 <= k < |operations| :: InCycleGroup(operations, k) <==> a <= k < b)
    && (a < b ==> operations[a].stage)
  }

  ghost predicate CycleGroupTogether(operations: seq<Operation>) {
    exists a: nat, b: nat :: CycleGroupIs(operations, a, b)
  }

  ghost predicate GroupHas(operations: seq<Operation>, status: OperationStatus) {
    forall k | 0 <= k < |operations| && InCycleGroup(operations, k) :: operations[k].status == status
  }

  /** Whatever a scheduled operation waits for is scheduled before it. */
  ghost predicate DependenciesEarlier(plan: seq<Operation>) {
    forall k, d | 0 <= k < |plan| && plan[k].status.PreflightOk? && d in plan[k].dependencies ::
      exists j | 0 <= j < k :: plan[j].id == d && plan[j].status.PreflightOk?
  }

  /** The steps that a run attempts: blocked operations are never scheduled. */
  function ScheduledSteps(plan: seq<Operation>): seq<Step> {
    if plan == [] then []
    else (if plan[0].status.PreflightOk? then [plan[0].step] else []) + ScheduledSteps(plan[1..])
  }

  lemma {:induction false} ScheduledConcat(a: seq<Operation>, b: seq<Operation>)
    ensures ScheduledSteps(a + b) == ScheduledSteps(a) + ScheduledSteps(b)
    decreases |a|
  {
    if a == [] {
      assert a + b == b;
    } else {
      assert a == [a[0]] + a[1..] && a + b == [a[0]] + (a[1..] + b);
      ScheduledConcat(a[1..], b);
      ScheduledFirst(a[0], a[1..]);
      ScheduledFirst(a[0], a[1..] + b);
    }
  }

  lemma ScheduledFirst(first: Operation, rest: seq<Operation>)
    ensures ScheduledSteps([first] + rest) == (if first.status.PreflightOk? then [first.step] else []) + ScheduledSteps(rest)
  {
    assert ([first] + rest)[1..] == rest;
  }

  class Session {
    var tree: Tree
    var operations: seq<Operation>
    var status: SessionStatus
    ghost const origin: Tree

    ghost predicate Valid()
      reads this
    {
      if status == RecoveryRequired then exists k: nat :: PendingAt(origin, operations, tree, k)
      else
        && Quiet(operations) && Explains(origin, operations, tree)
        && (status != RollbackPartial ==> forall k | 0 <= k < |operations| :: operations[k].status != RollbackBlocked)
    }

    /** The plan itself never changes: only statuses do. */
    twostate predicate SamePlan()
      reads this
    {
      |operations| == |old(operations)|
      && forall k | 0 <= k < |operations| :: operations[k] == old(operations)[k].(status := operations[k].status)
    }

    constructor (tree: Tree, operations: seq<Operation>)
      requires WellFormed(tree)
      requires forall k | 0 <= k < |operations| :: operations[k].status.PreflightOk? || operations[k].status.Blocked?
      ensures Valid() && origin == tree && this.tree == tree && this.operations == operations && status == Approved
    {
      this.tree, this.operations, status, origin := tree, operations, Approved, tree;
      NoneInEffect(operations);
    }

    /** `apply_scheduled_operation`. */
    method ApplyScheduled(k: nat, dispatch: Dispatch) returns (applied: bool)
      requires Valid() && status == Approved && k < |operations| && operations[k].status == PreflightOk
      requires forall j | k <= j < |operations| :: !InEffect(operations[j].status)
      modifies this`tree, this`operations, this`status
      ensures Valid() && SamePlan()
      ensures forall j | 0 <= j < |operations| && j != k :: operations[j] == old(operations[j])
      ensures applied <==> Apply(old(operations[k].step), old(tree)).Some? && dispatch == Performed
      ensures applied ==> status == Approved && operations[k].status == Applied
                          && Some(tree) == Apply(old(operations[k].step), old(tree))
      ensures !applied ==> status in {Stopped, RecoveryRequired} && !InEffect(operations[k].status)
      ensures status == RecoveryRequired <==>
                Apply(old(operations[k].step), old(tree)).Some? && dispatch in {LostBefore, LostAfter}
    {
      var operation := operations[k];
      ghost var before := operations;
      var after := Apply(operation.step, tree);
      if after.None? || dispatch == Refused {
        operations := operations[k := operation.(status := Failed)];
        status, applied := Stopped, false;
        SameInEffect(before, operations);
      } else if dispatch == Performed {
        NextStepApplied(origin, operations, tree, k);
        tree := after.value;
        operations := operations[k := operation.(status := Applied)];
        applied := true;
      } else {
        tree := if dispatch == LostAfter then after.value else tree;
        operations := operations[k := operation.(status := Running)];
        status, applied := RecoveryRequired, false;
        SameInEffect(before, operations);
        assert PendingAt(origin, operations, tree, k);
      }
    }

    /** One turn of the loop in `start_execution_at`. */
    method RunNext(i: nat, control: Control, dispatch: Dispatch, applied: set<nat>, cycleStarted: bool,
                   ghost plan: seq<Operation>)
      returns (go: bool)
      requires Valid() && status == Approved && i < |operations|
      requires Prepared(plan) && Reached(plan, operations, i)
      requires applied == AppliedIds(operations, i) && cycleStarted == StageApplied(operations, i)
      modifies this`tree, this`operations, this`status
      ensures Valid() && SamePlan()
      ensures go ==> status == Approved && Reached(plan, operations, i + 1)
      ensures !go ==> Halted(origin, plan, operations, status, control == Proceed && dispatch == Performed)
    {
      var operation := operations[i];
      ghost var current, disk := operations, tree;
      if operation.status.Blocked? {
        return true;
      }
      if control != Proceed && !(cycleStarted && InCycleGroup(operations, i)) {
        status := if control == Cancel then Cancelled else Paused;
        if CycleGroupTogether(plan) {
          StoppedOutsideGroup(plan, operations, i);
        }
        StoppedAt(plan, current, operations, i);
        return false;
      }
      if !(operation.dependencies <= applied) {
        operations, status := operations[i := operation.(status := Failed)], Stopped;
        SameInEffect(current, operations);
        StoppedAt(plan, current, operations, i);
        if DependenciesEarlier(plan) {
          DependenciesAreMet(plan, current, i);
        }
        return false;
      }
      go := ApplyScheduled(i, dispatch);
      if go {
        ReachedNext(plan, current, operations, i);
        return;
      }
      StoppedAt(plan, current, operations, i);
      if dispatch == Performed {
        HaltedRunFails(origin, plan, current, i, disk);
      }
    }

    /** `start_execution_at`: run the prepared operations in order until one is refused,
        lost, or the user pauses or cancels between two safe units. */
    method Start(control: nat -> Control, worker: nat -> Dispatch)
      requires Valid() && status == Approved && Prepared(operations)
      modifies this`tree, this`operations, this`status
      ensures Valid() && SamePlan()
      ensures status in {Partial, Completed} ==> Reached(old(operations), operations, |operations|)
      ensures status == Completed ==> forall k | 0 <= k < |operations| :: operations[k].status == Applied
      ensures status !in {Partial, Completed} ==>
                Halted(origin, old(operations), operations, status, Smooth(control, worker))
      ensures status in {Partial, Completed} ==> Some(tree) == Replay(ScheduledSteps(old(operations)), origin)
    {
      ghost var plan := operations;
      var applied: set<nat> := {};
      var cycleStarted := false;
      var i := 0;
      while i < |operations|
        invariant 0 <= i <= |operations|
        invariant Valid() && status == Approved && Reached(plan, operations, i)
        invariant applied == AppliedIds(operations, i) && cycleStarted == StageApplied(operations, i)
      {
        ghost var current := operations;
        var go := RunNext(i, control(i), worker(i), applied, cycleStarted, plan);
        if !go {
          return;
        }
        SettledNext(plan, current, operations, i);
        if !operations[i].status.Blocked? {
          applied, cycleStarted := applied + {operations[i].id}, cycleStarted || operations[i].stage;
        }
        i := i + 1;
      }
      status := if HasBlocked(operations) then Partial else Completed;
      assert plan[..|plan|] == plan;
      ReachedSteps(plan, operations, |plan|);
    }

    /** One rollback step: operation `k` is the last one in effect. */
    method RollbackOne(k: nat, dispatch: Dispatch) returns (restored: bool)
      requires Valid() && status !in {RecoveryRequired, RollbackPartial} && k < |operations|
      requires IsApplied(operations[k].status)
      requires forall j | k < j < |operations| :: !InEffect(operations[j].status)
      modifies this`tree, this`operations, this`status
      ensures Valid() && SamePlan()
      ensures forall j | 0 <= j < |operations| && j != k :: operations[j] == old(operations[j])
      ensures restored <==> dispatch == Performed
      ensures restored ==> status == old(status) && operations[k].status == RolledBack
      ensures !restored ==> status == if dispatch == Refused then RollbackPartial else RecoveryRequired
    {
      var operation := operations[k];
      ghost var before := operations;
      LastStepUndone(origin, operations, tree, k);
      // `revalidate_rollback` cannot refuse: the disk is exactly what this step left.
      var undone := Undo(operation.step, tree).value;
      match dispatch
      case Performed =>
        tree := undone;
        operations := operations[k := operation.(status := RolledBack)];
        restored := true;
      case Refused =>
        operations := operations[k := operation.(status := RollbackBlocked)];
        status, restored := RollbackPartial, false;
        SameInEffect(before, operations);
      case _ =>
        tree := if dispatch == LostAfter then undone else tree;
        operations := operations[k := operation.(status := RollingBack)];
        status, restored := RecoveryRequired, false;
        RollbackIsPending(origin, before, old(tree), k, tree);
    }

    /** `rollback_execution`: undo what is in effect, last operation first. */
    method Rollback(worker: nat -> Dispatch) returns (accepted: bool)
      requires Valid()
      modifies this`tree, this`operations, this`status
      ensures Valid() && SamePlan()
      ensures accepted <==> old(status) in {Completed, Partial, Cancelled, Stopped, RecoveryAvailable, Paused}
      ensures !accepted ==> unchanged(this)
      ensures accepted ==> status in {Restored, RollbackPartial, RecoveryRequired}
      ensures accepted && status == Restored ==>
                tree == origin && forall k | 0 <= k < |operations| :: !InEffect(operations[k].status)
      ensures accepted && (forall k: nat :: worker(k) == Performed) ==> status == Restored
    {
      if status !in {Completed, Partial, Cancelled, Stopped, RecoveryAvailable, Paused} {
        return false;
      }
      accepted := true;
      var i := |operations|;
      while i > 0
        invariant 0 <= i <= |operations| && Valid() && SamePlan() && status == old(status)
        invariant forall k | 0 <= k < i :: operations[k] == old(operations[k])
        invariant forall k | i <= k < |operations| :: !InEffect(operations[k].status)
      {
        i := i - 1;
        if IsApplied(operations[i].status) {
          var restored := RollbackOne(i, worker(i));
          if !restored {
            return;
          }
        }
      }
      status := Restored;
      NoneInEffect(operations);
    }

    /** `recover_execution`: ask the disk which side of its step the interrupted operation
        is on. The answer is never ambiguous, and it agrees with the disk. */
    method Recover() returns (accepted: bool)
      requires Valid()
      modifies this`operations, this`status
      ensures Valid() && SamePlan() && tree == old(tree)
      ensures accepted <==> old(status) in {RecoveryRequired, RecoveryAvailable, RecoveryAmbiguous}
      ensures !accepted ==> unchanged(this)
      ensures accepted && old(status) == RecoveryRequired ==> status == RecoveryAvailable
      ensures accepted && old(status) != RecoveryAmbiguous ==> status != RecoveryAmbiguous
    {
      if status !in {RecoveryRequired, RecoveryAvailable, RecoveryAmbiguous} {
        return false;
      }
      accepted := true;
      if status != RecoveryRequired {
        return;
      }
      var k :| 0 <= k < |operations| && IsPending(operations[k].status);
      RecoveryAgrees(origin, operations, tree, k);
      var settled := Settled(operations[k].status, Observe(operations[k], tree));
      status := if Observe(operations[k], tree) == Ambiguous then RecoveryAmbiguous else RecoveryAvailable;
      operations := operations[k := operations[k].(status := settled)];
    }

    /** Whatever the history of the session, when it is quiet the disk holds every file of
        the starting tree exactly once, unaltered, where the steps in effect carried it. */
    lemma FilesAreConserved()
      requires Valid() && status != RecoveryRequired
      ensures FilesFollow(StepsInEffect(operations), origin, tree)
    {
      ReplayKeepsFiles(StepsInEffect(operations), origin);
    }
  }

  /** A step that is accepted after everything in effect extends what is in effect. */
  lemma NextStepApplied(origin: Tree, operations: seq<Operation>, tree: Tree, k: nat)
    requires Explains(origin, operations, tree) && k < |operations| && Apply(operations[k].step, tree).Some?
    requires forall j | k <= j < |operations| :: !InEffect(operations[j].status)
    ensures Explains(origin, operations[k := operations[k].(status := Applied)], Apply(operations[k].step, tree).value)
  {
    var operation := operations[k];
    LastInEffect(operations, k, operation.(status := Applied), operation);
    assert operations[k := operation] == operations;
    ReplayLast(StepsInEffect(operations), operation.step, origin);
  }

  /** The last step in effect can be undone, and the disk is then explained without it. */
  lemma LastStepUndone(origin: Tree, operations: seq<Operation>, tree: Tree, k: nat)
    requires Explains(origin, operations, tree) && k < |operations| && InEffect(operations[k].status)
    requires forall j | k < j < |operations| :: !InEffect(operations[j].status)
    ensures Undo(operations[k].step, tree).Some?
    ensures var rest := Replay(StepsInEffect(operations[k := operations[k].(status := RolledBack)]), origin);
            rest == Undo(operations[k].step, tree) && Apply(operations[k].step, rest.value) == Some(tree)
  {
    var operation := operations[k];
    LastInEffect(operations, k, operation, operation.(status := RolledBack));
    assert operations[k := operation] == operations;
    var rest := StepsInEffect(operations[k := operation.(status := RolledBack)]);
    ReplayLast(rest, operation.step, origin);
    ReplayKeepsWellFormed(rest, origin);
    UndoRestores(operation.step, Replay(rest, origin).value);
  }

  /** An interrupted rollback of the last step in effect leaves one of its two sides. */
  lemma RollbackIsPending(origin: Tree, operations: seq<Operation>, tree: Tree, k: nat, after: Tree)
    requires Explains(origin, operations, tree) && Quiet(operations) && k < |operations| && InEffect(operations[k].status)
    requires forall j | k < j < |operations| :: !InEffect(operations[j].status)
    requires forall j | 0 <= j < |operations| :: operations[j].status != RollbackBlocked
    requires after == tree || Some(after) == Undo(operations[k].step, tree)
    ensures PendingAt(origin, operations[k := operations[k].(status := RollingBack)], after, k)
  {
    var operation := operations[k];
    LastStepUndone(origin, operations, tree, k);
    SameInEffect(operations[k := operation.(status := RollingBack)], operations[k := operation.(status := RolledBack)]);
  }

  function Observe(operation: Operation, tree: Tree): Observation {
    if operation.status.RollingBack? then ObserveBackward(tree, operation.step) else ObserveForward(tree, operation.step)
  }

  /** The status that `reconcile_one_interrupted_request` records for an observation. */
  function Settled(status: OperationStatus, seen: Observation): OperationStatus {
    match seen
    case NotStarted => if status.RollingBack? then Applied else PreflightOk
    case Done => if status.RollingBack? then RolledBack else Recovered
    case Ambiguous => status
  }

  /** Recording the observation of the interrupted operation explains the disk again. */
  lemma RecoveryAgrees(origin: Tree, operations: seq<Operation>, tree: Tree, k: nat)
    requires PendingAt(origin, operations, tree, k)
    ensures Observe(operations[k], tree) != Ambiguous
    ensures var settled := Settled(operations[k].status, Observe(operations[k], tree));
            !IsPending(settled) && settled != RollbackBlocked
            && Explains(origin, operations[k := operations[k].(status := settled)], tree)
  {
    var operation := operations[k];
    var settled := Settled(operation.status, Observe(operation, tree));
    var start := Replay(StepsInEffect(operations), origin).value;
    ObservationIsExact(start, operation.step);
    if InEffect(settled) {
      LastInEffect(operations, k, operation.(status := settled), operation);
      assert operations[k := operation] == operations;
      ReplayLast(StepsInEffect(operations), operation.step, origin);
    } else {
      SameInEffect(operations, operations[k := operation.(status := settled)]);
    }
  }

  predicate HasBlocked(operations: seq<Operation>) {
    exists k | 0 <= k < |operations| :: operations[k].status == Blocked
  }

  ghost predicate Smooth(control: nat -> Control, worker: nat -> Dispatch) {
    forall k: nat :: control(k) == Proceed && worker(k) == Performed
  }

  ghost predicate Prepared(plan: seq<Operation>) {
    forall k | 0 <= k < |plan| :: plan[k].status.PreflightOk? || plan[k].status.Blocked?
  }

  /** The run stopped at operation `i`: the scheduled steps before it are in effect. */
  ghost predicate HaltedAt(plan: seq<Operation>, operations: seq<Operation>, i: nat) {
    i < |plan| && plan[i].status.PreflightOk? && StepsInEffect(operations) == ScheduledSteps(plan[..i])
  }

  /** How a run can stop early: paused or cancelled with the staging group whole, stopped at
      a refusal, or lost. Without interference it stops only at a step that fails. */
  ghost predicate Halted(origin: Tree, plan: seq<Operation>, operations: seq<Operation>, status: SessionStatus, smooth: bool) {
    && status in {Paused, Cancelled, Stopped, RecoveryRequired}
    && (exists i: nat :: HaltedAt(plan, operations, i))
    && (status in {Paused, Cancelled} && CycleGroupTogether(plan) ==>
          GroupHas(operations, Applied) || GroupHas(operations, PreflightOk))
    && (smooth && DependenciesEarlier(plan) ==> status == Stopped && Replay(ScheduledSteps(plan), origin).None?)
  }

  /** The first `i` operations of the plan are settled, the others untouched. */
  ghost predicate Reached(plan: seq<Operation>, operations: seq<Operation>, i: nat) {
    && i <= |plan| == |operations|
    && (forall k | 0 <= k < i ::
          operations[k] == plan[k].(status := if plan[k].status.Blocked? then Blocked else Applied))
    && (forall k | i <= k < |plan| :: operations[k] == plan[k])
  }

  function AppliedIds(operations: seq<Operation>, i: nat): set<nat>
    requires i <= |operations|
  {
    set k | 0 <= k < i && operations[k].status == Applied :: operations[k].id
  }

  predicate StageApplied(operations: seq<Operation>, i: nat)
    requires i <= |operations|
  {
    exists k | 0 <= k < i :: operations[k].stage && operations[k].status == Applied
  }

  lemma ReachedNext(plan: seq<Operation>, before: seq<Operation>, after: seq<Operation>, i: nat)
    requires i < |plan| && Reached(plan, before, i) && |after| == |before| && before[i].status == PreflightOk
    requires after[i] == before[i].(status := Applied)
    requires forall j | 0 <= j < |before| && j != i :: after[j] == before[j]
    ensures Reached(plan, after, i + 1)
  {
  }

  lemma SettledNext(plan: seq<Operation>, before: seq<Operation>, after: seq<Operation>, i: nat)
    requires i < |plan| && Reached(plan, before, i) && Reached(plan, after, i + 1)
    ensures after[i].status.Blocked? ==>
              AppliedIds(after, i + 1) == AppliedIds(before, i) && StageApplied(after, i + 1) == StageApplied(before, i)
    ensures !after[i].status.Blocked? ==>
              && AppliedIds(after, i + 1) == AppliedIds(before, i) + {after[i].id}
              && StageApplied(after, i + 1) == (StageApplied(before, i) || after[i].stage)
    ensures after[..i] == before[..i]
  {
    assert forall k | 0 <= k < i :: after[k] == before[k];
    forall d | d in AppliedIds(before, i) ensures d in AppliedIds(after, i + 1) {
      var k :| 0 <= k < i && before[k].status == Applied && before[k].id == d;
      assert after[k] == before[k];
    }
    if StageApplied(before, i) {
      var k :| 0 <= k < i && before[k].stage && before[k].status == Applied;
      assert after[k] == before[k];
    }
  }

  lemma {:induction false} ReachedSteps(plan: seq<Operation>, operations: seq<Operation>, i: nat)
    requires Prepared(plan) && Reached(plan, operations, i)
    ensures StepsInEffect(operations) == ScheduledSteps(plan[..i])
  {
    if i == 0 {
      NoneInEffect(operations);
    } else {
      ReachedSteps(plan[1..], operations[1..], i - 1);
      assert plan[..i][0] == plan[0] && plan[..i][1..] == plan[1..][..i - 1];
    }
  }

  /** A run that stops early has done some of the first steps, and not all. */
  lemma HaltedInside(plan: seq<Operation>, operations: seq<Operation>)
    requires exists i: nat :: HaltedAt(plan, operations, i)
    ensures StepsInEffect(operations) < ScheduledSteps(plan)
  {
    var i: nat :| HaltedAt(plan, operations, i);
    assert plan == plan[..i] + plan[i..];
    ScheduledConcat(plan[..i], plan[i..]);
    assert ScheduledSteps(plan[i..])[0] == plan[i].step;
  }

  lemma StoppedAt(plan: seq<Operation>, reached: seq<Operation>, operations: seq<Operation>, i: nat)
    requires i < |plan| && Prepared(plan) && Reached(plan, reached, i) && plan[i].status.PreflightOk? && |operations| == |plan|
    requires forall k | 0 <= k < |plan| && k != i :: operations[k] == reached[k]
    requires operations[i].step == plan[i].step && !InEffect(operations[i].status)
    ensures HaltedAt(plan, operations, i)
  {
    SameInEffect(operations, reached);
    ReachedSteps(plan, reached, i);
  }

  lemma DependenciesAreMet(plan: seq<Operation>, operations: seq<Operation>, i: nat)
    requires i < |plan| && Reached(plan, operations, i) && DependenciesEarlier(plan) && plan[i].status.PreflightOk?
    ensures operations[i].dependencies <= AppliedIds(operations, i)
  {
    forall d | d in operations[i].dependencies ensures d in AppliedIds(operations, i) {
      assert d in plan[i].dependencies;
      var j :| 0 <= j < i && plan[j].id == d && plan[j].status.PreflightOk?;
      assert operations[j].status == Applied && operations[j].id == d;
    }
  }

  /** A refused step means that the list of steps as a whole cannot be replayed. */
  lemma HaltedRunFails(origin: Tree, plan: seq<Operation>, operations: seq<Operation>, i: nat, tree: Tree)
    requires i < |plan| && Prepared(plan) && Reached(plan, operations, i) && plan[i].status.PreflightOk?
    requires Explains(origin, operations, tree) && Apply(plan[i].step, tree).None?
    ensures Replay(ScheduledSteps(plan), origin).None?
  {
    ReachedSteps(plan, operations, i);
    var done, rest := ScheduledSteps(plan[..i]), ScheduledSteps(plan[i + 1..]);
    assert plan == plan[..i] + plan[i..] && plan[i..][1..] == plan[i + 1..];
    ScheduledConcat(plan[..i], plan[i..]);
    ReplayConcat(done, [plan[i].step] + rest, origin);
  }

  /** A stop between two units finds the staging group finished or not begun. */
  lemma StoppedOutsideGroup(plan: seq<Operation>, operations: seq<Operation>, i: nat)
    requires i < |plan| && Reached(plan, operations, i) && CycleGroupTogether(plan)
    requires Prepared(plan)
    requires !(StageApplied(operations, i) && InCycleGroup(operations, i))
    ensures GroupHas(operations, Applied) || GroupHas(operations, PreflightOk)
  {
    var a: nat, b: nat :| CycleGroupIs(plan, a, b);
    forall k | 0 <= k < |plan| ensures InCycleGroup(operations, k) <==> InCycleGroup(plan, k) {
      assert forall j | 0 <= j < |plan| :: operations[j].status == Blocked <==> plan[j].status == Blocked;
    }
    if a < i && a < b {
      assert InCycleGroup(plan, a) && operations[a].status == Applied && operations[a].stage;
      assert b <= i;
      assert GroupHas(operations, Applied);
    } else {
      assert GroupHas(operations, PreflightOk);
    }
  }
}
