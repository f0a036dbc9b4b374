/** What a prepared plan does when the executor runs it: create directories, move files
    directly, break cycles through staging, then remove emptied source directories. */
module PlanRuns {
  import opened Paths
  import opened FileTree

  const STAGING: Name := ".supremacy-staging"

  datatype Plan = Plan(
    directories: seq<Path>,
    direct: seq<Step>,
    stages: seq<Step>,
    finals: seq<Step>,
    removals: seq<Path>)

  function Creates(paths: seq<Path>): (steps: seq<Step>)
    ensures |steps| == |paths|
  {
    seq(|paths|, i requires 0 <= i < |paths| => CreateDirectory(paths[i]))
  }

  function Removes(paths: seq<Path>): (steps: seq<Step>)
    ensures |steps| == |paths|
  {
    seq(|paths|, i requires 0 <= i < |paths| => RemoveDirectoryIfEmpty(paths[i]))
  }

  function Front(plan: Plan): seq<Step> {
    Creates(plan.directories) + (plan.direct + (plan.stages + plan.finals))
  }

  function Steps(plan: Plan): seq<Step> {
    Front(plan) + Removes(plan.removals)
  }

  ghost predicate AllMoves(moves: seq<Step>) {
    forall k | 0 <= k < |moves| :: moves[k].Move?
  }

  ghost function Sources(moves: seq<Step>): set<Path>
    requires AllMoves(moves)
  {
    set k | 0 <= k < |moves| :: moves[k].source
  }

  ghost function Destinations(moves: seq<Step>): set<Path>
    requires AllMoves(moves)
  {
    set k | 0 <= k < |moves| :: moves[k].destination
  }

  ghost predicate Distinct(moves: seq<Step>)
    requires AllMoves(moves)
  {
    && (forall i, j | 0 <= i < j < |moves| :: moves[i].source != moves[j].source)
    && (forall i, j | 0 <= i < j < |moves| :: moves[i].destination != moves[j].destination)
  }

  // ---- one block of steps at a time

  /** Moves that can run in order: each takes a file of the starting tree to a place that
      was free or that an earlier move vacates. */
  ghost predicate MovesReady(t: Tree, moves: seq<Step>) {
    && AllMoves(moves) && Distinct(moves)
    && (forall k | 0 <= k < |moves| :: moves[k].source in t && t[moves[k].source] == File(moves[k].expected))
    && (forall k | 0 <= k < |moves| :: moves[k].destination != [] && ParentReady(t, moves[k].destination))
    && (forall k | 0 <= k < |moves| ::
          moves[k].destination in t ==> exists j | 0 <= j < k :: moves[j].source == moves[k].destination)
  }

  ghost predicate Moved(t: Tree, moves: seq<Step>, u: Tree)
    requires AllMoves(moves)
  {
    && (forall p :: p in u <==> p in Destinations(moves) || (p in t && p !in Sources(moves)))
    && (forall k | 0 <= k < |moves| :: moves[k].destination in u && u[moves[k].destination] == File(moves[k].expected))
    && (forall p | p in u && p !in Destinations(moves) :: u[p] == t[p])
  }

  lemma FrontIsReady(t: Tree, front: seq<Step>, last: Step)
    requires MovesReady(t, front + [last])
    ensures MovesReady(t, front)
  {
    var moves := front + [last];
    assert forall k | 0 <= k < |front| :: moves[k] == front[k];
    forall k | 0 <= k < |front| && front[k].destination in t
      ensures exists j | 0 <= j < k :: front[j].source == front[k].destination
    {
      var j :| 0 <= j < k && moves[j].source == moves[k].destination;
      assert front[j].source == front[k].destination;
    }
  }

  lemma LastMoveIsReady(t: Tree, front: seq<Step>, last: Step, u: Tree)
    requires WellFormed(t) && WellFormed(u) && MovesReady(t, front + [last])
    requires AllMoves(front) && Moved(t, front, u)
    ensures last.Move? && last.source in u && u[last.source] == File(last.expected)
    ensures CanAppear(u, last.destination)
    ensures last.source !in Destinations(front) && last.destination !in Destinations(front)
  {
    var moves, n := front + [last], |front|;
    assert moves[n] == last;
    assert forall k | 0 <= k < n :: moves[k] == front[k];
    LastMoveIsApart(t, front, last);
    LastPlaceIsVacated(t, front, last);
    assert ParentReady(t, last.destination);
    if |last.destination| > 1 {
      assert Parent(last.destination) !in Destinations(front);
      AncestorsOfReadyPlace(u, last.destination);
    }
  }

  /** Earlier moves put nothing where the last one takes from or goes to. */
  lemma LastMoveIsApart(t: Tree, front: seq<Step>, last: Step)
    requires MovesReady(t, front + [last]) && AllMoves(front) && last.Move?
    ensures last.source !in Destinations(front) && last.destination !in Destinations(front)
    ensures forall d | d in Destinations(front) && d in t :: t[d].File?
  {
    var moves, n := front + [last], |front|;
    forall i | 0 <= i < n
      ensures front[i].destination != last.source && front[i].destination != last.destination
      ensures front[i].destination in t ==> t[front[i].destination].File?
    {
      assert moves[i] == front[i] && moves[n] == last;
      if moves[i].destination in t {
        var j :| 0 <= j < i && moves[j].source == moves[i].destination;
      }
    }
  }

  lemma LastPlaceIsVacated(t: Tree, front: seq<Step>, last: Step)
    requires MovesReady(t, front + [last]) && AllMoves(front) && last.Move?
    ensures last.destination in t ==> last.destination in Sources(front)
  {
    var moves, n := front + [last], |front|;
    assert moves[n] == last;
    if last.destination in t {
      var j :| 0 <= j < n && moves[j].source == moves[n].destination;
      assert front[j] == moves[j];
    }
  }

  lemma MovedByOneMore(t: Tree, front: seq<Step>, last: Step, u: Tree)
    requires AllMoves(front) && last.Move? && Moved(t, front, u)
    requires last.source in t && last.source !in Destinations(front)
    requires last.destination !in Destinations(front) && last.destination != last.source
    requires last.source in u && u[last.source] == File(last.expected)
    ensures Moved(t, front + [last], (u - {last.source})[last.destination := u[last.source]])
  {
    var moves, v := front + [last], (u - {last.source})[last.destination := u[last.source]];
    assert moves[|front|] == last;
    assert forall k | 0 <= k < |front| :: moves[k] == front[k];
    assert Sources(moves) == Sources(front) + {last.source};
    assert Destinations(moves) == Destinations(front) + {last.destination};
    forall k | 0 <= k < |moves|
      ensures moves[k].destination in v && v[moves[k].destination] == File(moves[k].expected)
    {
      assert k < |front| ==> front[k].destination in Destinations(front);
    }
  }

  lemma {:induction false} MovesRun(t: Tree, moves: seq<Step>)
    requires WellFormed(t) && MovesReady(t, moves)
    ensures Replay(moves, t).Some? && Moved(t, moves, Replay(moves, t).value)
  {
    if moves != [] {
      var front, last := moves[..|moves| - 1], moves[|moves| - 1];
      assert moves == front + [last];
      FrontIsReady(t, front, last);
      MovesRun(t, front);
      var u := Replay(front, t).value;
      ReplayKeepsWellFormed(front, t);
      LastMoveIsReady(t, front, last, u);
      ReplayLast(front, last, t);
      MovedByOneMore(t, front, last, u);
    }
  }

  lemma AncestorsOfReadyPlace(t: Tree, p: Path)
    requires WellFormed(t) && |p| > 1 && ParentReady(t, p)
    ensures forall n | 1 <= n < |p| :: IsDirectory(t, p[..n])
  {
    forall n | 1 <= n < |p| ensures IsDirectory(t, p[..n]) {
      if n < |p| - 1 {
        AncestorsAreDirectories(t, Parent(p), n);
        assert Parent(p)[..n] == p[..n];
      }
    }
  }

  /** Directories that can be created in order: absent, and each below an existing or an
      earlier created one. */
  ghost predicate CreatesReady(t: Tree, paths: seq<Path>) {
    && (forall i, j | 0 <= i < j < |paths| :: paths[i] != paths[j])
    && (forall k | 0 <= k < |paths| :: paths[k] != [] && paths[k] !in t)
    && (forall k | 0 <= k < |paths| :: ParentReady(t, paths[k]) || Parent(paths[k]) in paths[..k])
  }

  ghost predicate Created(t: Tree, paths: seq<Path>, u: Tree) {
    && (forall p :: p in u <==> p in t || p in paths)
    && (forall p | p in t :: u[p] == t[p])
    && (forall p | p in u && p !in t :: u[p] == Directory)
  }

  lemma {:induction false} CreatesRun(t: Tree, paths: seq<Path>)
    requires WellFormed(t) && CreatesReady(t, paths)
    ensures Replay(Creates(paths), t).Some? && Created(t, paths, Replay(Creates(paths), t).value)
  {
    if paths != [] {
      var front, last := paths[..|paths| - 1], paths[|paths| - 1];
      assert paths == front + [last];
      assert Creates(paths) == Creates(front) + [CreateDirectory(last)];
      CreatesReadyFront(t, front, last);
      CreatesRun(t, front);
      var u := Replay(Creates(front), t).value;
      ReplayKeepsWellFormed(Creates(front), t);
      ReplayLast(Creates(front), CreateDirectory(last), t);
      LastCreateIsReady(t, front, last, u);
      CreatedOneMore(t, front, last, u);
    }
  }

  lemma CreatesReadyFront(t: Tree, front: seq<Path>, last: Path)
    requires CreatesReady(t, front + [last])
    ensures CreatesReady(t, front) && last !in front && last != [] && last !in t
    ensures ParentReady(t, last) || Parent(last) in front
  {
    var paths := front + [last];
    assert paths[|front|] == last && paths[..|front|] == front;
    forall k | 0 <= k < |front| ensures front[k] == paths[k] && front[..k] == paths[..k] {
    }
  }

  lemma LastCreateIsReady(t: Tree, front: seq<Path>, last: Path, u: Tree)
    requires WellFormed(u) && CreatesReady(t, front) && Created(t, front, u)
    requires last !in front && last != [] && last !in t && (ParentReady(t, last) || Parent(last) in front)
    ensures CanAppear(u, last)
  {
    if |last| > 1 {
      assert Parent(last) in front ==> Parent(last) !in t;
      AncestorsOfReadyPlace(u, last);
    }
  }

  lemma CreatedOneMore(t: Tree, front: seq<Path>, last: Path, u: Tree)
    requires Created(t, front, u) && last !in t
    ensures Created(t, front + [last], u[last := Directory])
  {
    assert forall p :: p in front + [last] <==> p in front || p == last;
  }

  /** Directories that can be removed in order: each child left in it is removed earlier. */
  ghost predicate RemovesReady(t: Tree, paths: seq<Path>) {
    && (forall i, j | 0 <= i < j < |paths| :: paths[i] != paths[j])
    && (forall k | 0 <= k < |paths| :: IsDirectory(t, paths[k]))
    && (forall k, q | 0 <= k < |paths| && q in t && q != [] && Parent(q) == paths[k] :: q in paths[..k])
  }

  lemma RemovesReadyFront(t: Tree, front: seq<Path>, last: Path)
    requires RemovesReady(t, front + [last])
    ensures RemovesReady(t, front) && last !in front && IsDirectory(t, last)
    ensures forall q | q in t && q != [] && Parent(q) == last :: q in front
  {
    var paths := front + [last];
    assert paths[|front|] == last && paths[..|front|] == front;
    forall k | 0 <= k < |front| ensures front[k] == paths[k] && front[..k] == paths[..k] {
    }
  }

  lemma {:induction false} RemovesRun(t: Tree, paths: seq<Path>)
    requires RemovesReady(t, paths)
    ensures Replay(Removes(paths), t) == Some(t - (set p | p in paths))
  {
    if paths == [] {
      assert t - (set p | p in paths) == t;
    } else {
      var n := |paths| - 1;
      var front, last := paths[..n], paths[n];
      assert Removes(paths) == Removes(front) + [RemoveDirectoryIfEmpty(last)];
      assert paths == front + [last];
      RemovesReadyFront(t, front, last);
      RemovesRun(t, front);
      ReplayLast(Removes(front), RemoveDirectoryIfEmpty(last), t);
      WithoutOneMore(t, front, last);
    }
  }

  lemma WithoutOneMore(t: Tree, front: seq<Path>, last: Path)
    ensures (t - (set p | p in front)) - {last} == t - (set p | p in front + [last])
  {
    assert (set p | p in front + [last]) == (set p | p in front) + {last};
  }

  /** What is removed stays removed for the rest of the removals. */
  lemma {:induction false} RemovedIsGone(t: Tree, paths: seq<Path>, p: Path)
    requires Replay(Removes(paths), t).Some?
    requires p in paths || p !in t
    ensures p !in Replay(Removes(paths), t).value
  {
    if paths != [] {
      assert Removes(paths)[1..] == Removes(paths[1..]);
      RemovedIsGone(Apply(Removes(paths)[0], t).value, paths[1..], p);
    }
  }

  // ---- the whole plan

  function UserMoves(plan: Plan): seq<Step> {
    plan.direct + plan.finals
  }

  /** The moves that take files from where the tree has them. */
  function Taking(plan: Plan): seq<Step> {
    plan.direct + plan.stages
  }

  ghost predicate StagesFeedFinals(plan: Plan) {
    && AllMoves(plan.direct) && AllMoves(plan.stages) && AllMoves(plan.finals)
    && |plan.stages| == |plan.finals|
    && forall i | 0 <= i < |plan.stages| ::
         plan.stages[i].destination == plan.finals[i].source && plan.stages[i].expected == plan.finals[i].expected
  }

  ghost predicate StagingPlace(t: Tree, p: Path) {
    |p| == 3 && p[0] == STAGING && p !in t
  }

  /** A user destination is absent, or is the place of a file that an earlier step of the
      plan takes away. None is at or under a staging place. */
  ghost predicate MovesPlanned(t: Tree, plan: Plan) {
    && StagesFeedFinals(plan) && Distinct(Taking(plan))
    && (forall i, j | 0 <= i < j < |UserMoves(plan)| :: UserMoves(plan)[i].destination != UserMoves(plan)[j].destination)
    && (forall k | 0 <= k < |Taking(plan)| ::
          Taking(plan)[k].source in t && t[Taking(plan)[k].source] == File(Taking(plan)[k].expected))
    && (forall k | 0 <= k < |plan.stages| :: StagingPlace(t, plan.stages[k].destination))
    && (forall k | 0 <= k < |UserMoves(plan)| :: UserMoves(plan)[k].destination != [])
    && (forall k, i | 0 <= k < |UserMoves(plan)| && 0 <= i < |plan.stages| ::
          !AtOrUnder(UserMoves(plan)[k].destination, plan.stages[i].destination))
    && (forall k | 0 <= k < |plan.direct| && plan.direct[k].destination in t ::
          exists j | 0 <= j < k :: plan.direct[j].source == plan.direct[k].destination)
    && (forall k | 0 <= k < |plan.finals| && plan.finals[k].destination in t ::
          plan.finals[k].destination in Sources(Taking(plan)))
  }

  ghost predicate IsDestination(plan: Plan, d: Path)
    requires StagesFeedFinals(plan)
  {
    d in Destinations(plan.direct) || d in Destinations(plan.stages) || d in Destinations(plan.finals)
  }

  /** Exactly the missing ancestors of the destinations, parents first. */
  ghost predicate DirectoriesPlanned(t: Tree, plan: Plan)
    requires StagesFeedFinals(plan)
  {
    && (forall i, j | 0 <= i < j < |plan.directories| ::
          plan.directories[i] != plan.directories[j] && |plan.directories[i]| <= |plan.directories[j]|)
    && (forall k | 0 <= k < |plan.directories| :: plan.directories[k] != [] && plan.directories[k] !in t
          && exists d :: IsDestination(plan, d) && Above(plan.directories[k], d))
    && (forall d, p | IsDestination(plan, d) && p != [] && Above(p, d) :: IsDirectory(t, p) || p in plan.directories)
  }

  /** Whole directory trees that hold nothing but directories and planned sources. */
  ghost predicate RemovalsPlanned(t: Tree, plan: Plan)
    requires StagesFeedFinals(plan)
  {
    && (forall i, j | 0 <= i < j < |plan.removals| ::
          plan.removals[i] != plan.removals[j] && |plan.removals[i]| >= |plan.removals[j]|)
    && (forall r | r in plan.removals :: IsDirectory(t, r) && r != [] && r[0] != STAGING)
    && (forall r, p | r in plan.removals && p in t && AtOrUnder(p, r) :: p in plan.removals || p in Sources(Taking(plan)))
  }

  ghost predicate Planned(t: Tree, plan: Plan) {
    WellFormed(t) && MovesPlanned(t, plan) && DirectoriesPlanned(t, plan) && RemovalsPlanned(t, plan)
  }

  /** No destination lies strictly above another one. */
  ghost predicate NoneAbove(plan: Plan)
    requires StagesFeedFinals(plan)
  {
    forall d, e | IsDestination(plan, d) && IsDestination(plan, e) :: !Above(d, e)
  }

  /** No user destination lies at or under a directory that the plan removes. */
  ghost predicate NoneUnderRemoved(plan: Plan)
    requires StagesFeedFinals(plan)
  {
    forall i, r | 0 <= i < |UserMoves(plan)| && r in plan.removals ::
      !AtOrUnder(UserMoves(plan)[i].destination, r)
  }

  ghost predicate Survives(t: Tree, plan: Plan, p: Path)
    requires StagesFeedFinals(plan)
  {
    p in Destinations(UserMoves(plan))
    || ((p in t || p in plan.directories) && p !in Sources(Taking(plan)) && p !in plan.removals)
  }

  /** The tree after a completed plan. */
  ghost predicate Finished(t: Tree, plan: Plan, u: Tree)
    requires StagesFeedFinals(plan)
  {
    && (forall k | 0 <= k < |UserMoves(plan)| ::
          UserMoves(plan)[k].destination in u && u[UserMoves(plan)[k].destination] == File(UserMoves(plan)[k].expected))
    && (forall p :: p in u <==> Survives(t, plan, p))
    && (forall p | p in u && p !in Destinations(UserMoves(plan)) :: u[p] == if p in t then t[p] else Directory)
  }

  // ---- where the planned files go, whatever else the run does

  lemma {:induction false} LocateConcat(a: seq<Step>, b: seq<Step>, p: Path)
    ensures Locate(a + b, p) == Locate(b, Locate(a, p))
    decreases |a|
  {
    if a == [] {
      assert a + b == b;
    } else {
      assert (a + b)[0] == a[0] && (a + b)[1..] == a[1..] + b;
      LocateConcat(a[1..], b, Relocate(a[0], p));
    }
  }

  lemma {:induction false} LocateElsewhere(steps: seq<Step>, p: Path)
    requires forall k | 0 <= k < |steps| && steps[k].Move? :: steps[k].source != p
    ensures Locate(steps, p) == p
  {
    if steps != [] {
      LocateElsewhere(steps[1..], p);
    }
  }

  lemma {:induction false} LocateMoved(moves: seq<Step>, k: nat)
    requires k < |moves| && AllMoves(moves)
    requires forall j | 0 <= j < k :: moves[j].source != moves[k].source
    requires forall j | k < j < |moves| :: moves[j].source != moves[k].destination
    ensures Locate(moves, moves[k].source) == moves[k].destination
  {
    if k == 0 {
      LocateElsewhere(moves[1..], moves[0].destination);
    } else {
      LocateMoved(moves[1..], k - 1);
    }
  }

  /** A destination never coincides with a source that is taken later. */
  lemma DestinationsAreNotTakenLater(t: Tree, plan: Plan, k: nat, s: nat)
    requires MovesPlanned(t, plan) && k < |plan.direct| && k <= s < |Taking(plan)|
    ensures plan.direct[k].destination != Taking(plan)[s].source
  {
    if plan.direct[k].destination in t {
      var j :| 0 <= j < k && plan.direct[j].source == plan.direct[k].destination;
      assert Taking(plan)[j] == plan.direct[j];
      assert Taking(plan)[j].source != Taking(plan)[s].source;
    }
  }

  function Origin(plan: Plan, k: nat): Path
    requires StagesFeedFinals(plan) && k < |UserMoves(plan)|
  {
    Taking(plan)[k].source
  }

  lemma LocateThroughPlan(plan: Plan, p: Path)
    requires StagesFeedFinals(plan)
    ensures Locate(Steps(plan), p) == Locate(plan.finals, Locate(plan.stages, Locate(plan.direct, p)))
  {
    LocateConcat(Front(plan), Removes(plan.removals), p);
    LocateElsewhere(Removes(plan.removals), Locate(Front(plan), p));
    LocateElsewhere(Creates(plan.directories), p);
    LocateConcat(Creates(plan.directories), plan.direct + (plan.stages + plan.finals), p);
    LocateConcat(plan.direct, plan.stages + plan.finals, p);
    LocateConcat(plan.stages, plan.finals, Locate(plan.direct, p));
  }

  lemma TakingByPart(plan: Plan)
    requires StagesFeedFinals(plan)
    ensures forall j | 0 <= j < |plan.direct| :: Taking(plan)[j] == plan.direct[j] == UserMoves(plan)[j]
    ensures forall j | 0 <= j < |plan.stages| ::
              Taking(plan)[|plan.direct| + j] == plan.stages[j] && UserMoves(plan)[|plan.direct| + j] == plan.finals[j]
  {
  }

  lemma DirectFilesArrive(t: Tree, plan: Plan, k: nat)
    requires MovesPlanned(t, plan) && k < |plan.direct|
    ensures Locate(Steps(plan), plan.direct[k].source) == plan.direct[k].destination
  {
    var d := plan.direct[k].destination;
    TakingByPart(plan);
    LocateThroughPlan(plan, plan.direct[k].source);
    forall j | 0 <= j < |plan.direct| && j != k
      ensures plan.direct[j].source != plan.direct[k].source && (j > k ==> plan.direct[j].source != d)
    {
      assert Taking(plan)[j].source != Taking(plan)[k].source;
      if j > k {
        DestinationsAreNotTakenLater(t, plan, k, j);
      }
    }
    LocateMoved(plan.direct, k);
    forall j | 0 <= j < |plan.stages| ensures plan.stages[j].source != d && plan.finals[j].source != d {
      DestinationsAreNotTakenLater(t, plan, k, |plan.direct| + j);
      StagingIsNoUserDestination(t, plan, j, k);
    }
    LocateElsewhere(plan.stages, d);
    LocateElsewhere(plan.finals, d);
  }

  lemma DistinctAt(moves: seq<Step>, i: nat, j: nat)
    requires AllMoves(moves) && Distinct(moves) && i < |moves| && j < |moves| && i != j
    ensures moves[i].source != moves[j].source && moves[i].destination != moves[j].destination
  {
    assert i < j || j < i;
  }

  lemma StagesAreApart(t: Tree, plan: Plan, i: nat, j: nat)
    requires MovesPlanned(t, plan) && i < |plan.stages| && j < |plan.stages|
    ensures i != j ==> plan.stages[j].source != plan.stages[i].source
    ensures i != j ==> plan.stages[j].destination != plan.stages[i].destination
    ensures plan.stages[j].source in t && plan.stages[i].destination !in t
    ensures plan.stages[j].destination != plan.finals[i].destination
  {
    if i != j {
      StagesAreDistinct(plan, i, j);
    }
    StageTakesAFile(t, plan, j);
    assert StagingPlace(t, plan.stages[i].destination);
    assert UserMoves(plan)[|plan.direct| + i] == plan.finals[i];
    StagingIsNoUserDestination(t, plan, j, |plan.direct| + i);
  }

  lemma StagesAreDistinct(plan: Plan, i: nat, j: nat)
    requires StagesFeedFinals(plan) && Distinct(Taking(plan)) && i < |plan.stages| && j < |plan.stages| && i != j
    ensures plan.stages[j].source != plan.stages[i].source && plan.stages[j].destination != plan.stages[i].destination
  {
    var c := |plan.direct|;
    assert Taking(plan)[c + i] == plan.stages[i] && Taking(plan)[c + j] == plan.stages[j];
    DistinctAt(Taking(plan), c + i, c + j);
  }

  lemma StageTakesAFile(t: Tree, plan: Plan, j: nat)
    requires MovesPlanned(t, plan) && j < |plan.stages|
    ensures plan.stages[j].source in t && t[plan.stages[j].source] == File(plan.stages[j].expected)
  {
    assert Taking(plan)[|plan.direct| + j] == plan.stages[j];
  }

  lemma StagedFilesArrive(t: Tree, plan: Plan, i: nat)
    requires MovesPlanned(t, plan) && i < |plan.stages|
    ensures Locate(Steps(plan), plan.stages[i].source) == plan.finals[i].destination
  {
    LocateThroughPlan(plan, plan.stages[i].source);
    forall j | 0 <= j < |plan.direct| ensures plan.direct[j].source != plan.stages[i].source {
      TakingByPart(plan);
      assert Taking(plan)[j].source != Taking(plan)[|plan.direct| + i].source;
    }
    LocateElsewhere(plan.direct, plan.stages[i].source);
    forall j | 0 <= j < |plan.stages|
      ensures j != i ==> plan.stages[j].source != plan.stages[i].source && plan.finals[j].source != plan.finals[i].source
      ensures plan.stages[j].source != plan.stages[i].destination
      ensures plan.finals[j].source != plan.finals[i].destination
    {
      StagesAreApart(t, plan, i, j);
    }
    LocateMoved(plan.stages, i);
    LocateMoved(plan.finals, i);
  }

  /** The list of steps carries each planned file from its origin to its destination. */
  lemma PlannedFilesArrive(t: Tree, plan: Plan, k: nat)
    requires MovesPlanned(t, plan) && k < |UserMoves(plan)|
    ensures Locate(Steps(plan), Origin(plan, k)) == UserMoves(plan)[k].destination
  {
    TakingByPart(plan);
    if k < |plan.direct| {
      DirectFilesArrive(t, plan, k);
    } else {
      StagedFilesArrive(t, plan, k - |plan.direct|);
    }
  }

  lemma StagingIsNoUserDestination(t: Tree, plan: Plan, i: nat, k: nat)
    requires MovesPlanned(t, plan) && i < |plan.stages| && k < |UserMoves(plan)|
    ensures plan.stages[i].destination != UserMoves(plan)[k].destination
  {
    var d := UserMoves(plan)[k].destination;
    assert AtOrUnder(d, d);
  }

  lemma PartsOfThePlan(plan: Plan)
    requires StagesFeedFinals(plan)
    ensures Sources(Taking(plan)) == Sources(plan.direct) + Sources(plan.stages)
    ensures Destinations(UserMoves(plan)) == Destinations(plan.direct) + Destinations(plan.finals)
    ensures Destinations(plan.stages) == Sources(plan.finals)
  {
    TakingByPart(plan);
    forall p | p in Sources(plan.stages) ensures p in Sources(Taking(plan)) {
      var i :| 0 <= i < |plan.stages| && plan.stages[i].source == p;
      assert Taking(plan)[|plan.direct| + i].source == p;
    }
    forall p | p in Destinations(plan.finals) ensures p in Destinations(UserMoves(plan)) {
      var i :| 0 <= i < |plan.finals| && plan.finals[i].destination == p;
      assert UserMoves(plan)[|plan.direct| + i].destination == p;
    }
    forall p | p in Sources(plan.direct) ensures p in Sources(Taking(plan)) {
      var i :| 0 <= i < |plan.direct| && plan.direct[i].source == p;
      assert Taking(plan)[i].source == p;
    }
    forall p | p in Destinations(plan.direct) ensures p in Destinations(UserMoves(plan)) {
      var i :| 0 <= i < |plan.direct| && plan.direct[i].destination == p;
      assert UserMoves(plan)[i].destination == p;
    }
    forall p | p in Destinations(plan.stages) ensures p in Sources(plan.finals) {
      var i :| 0 <= i < |plan.stages| && plan.stages[i].destination == p;
      assert plan.finals[i].source == p;
    }
    forall p | p in Sources(plan.finals) ensures p in Destinations(plan.stages) {
      var i :| 0 <= i < |plan.finals| && plan.finals[i].source == p;
      assert plan.stages[i].destination == p;
    }
  }

  // ---- the run succeeds when no destination is above another or under a removed directory

  lemma DirectoriesAreReady(t: Tree, plan: Plan)
    requires Planned(t, plan)
    ensures CreatesReady(t, plan.directories)
  {
    forall k | 0 <= k < |plan.directories|
      ensures ParentReady(t, plan.directories[k]) || Parent(plan.directories[k]) in plan.directories[..k]
    {
      var dir := plan.directories[k];
      if |dir| > 1 && !IsDirectory(t, Parent(dir)) {
        var d :| IsDestination(plan, d) && Above(dir, d);
        assert Parent(dir) == d[..|dir|][..|dir| - 1] == d[..|dir| - 1];
        assert Above(Parent(dir), d);
        var m :| 0 <= m < |plan.directories| && plan.directories[m] == Parent(dir);
        assert m < k;
        assert plan.directories[..k][m] == Parent(dir);
      }
    }
  }

  lemma ParentIsThere(t: Tree, plan: Plan, t1: Tree, d: Path)
    requires Planned(t, plan) && Created(t, plan.directories, t1)
    requires IsDestination(plan, d) && d != []
    ensures ParentReady(t1, d)
  {
    if |d| > 1 {
      assert Above(Parent(d), d);
    }
  }

  lemma StagingNotAboveDestinations(t: Tree, plan: Plan, i: nat, d: Path)
    requires Planned(t, plan) && i < |plan.stages| && IsDestination(plan, d)
    ensures !Above(plan.stages[i].destination, d)
  {
    var g := plan.stages[i].destination;
    assert StagingPlace(t, g);
    if d in Destinations(plan.stages) {
      var j :| 0 <= j < |plan.stages| && plan.stages[j].destination == d;
      assert StagingPlace(t, plan.stages[j].destination);
    } else {
      UserDestination(plan, d);
    }
  }

  lemma IsUserDestination(plan: Plan, k: nat)
    requires StagesFeedFinals(plan) && k < |UserMoves(plan)|
    ensures IsDestination(plan, UserMoves(plan)[k].destination)
  {
    PartsOfThePlan(plan);
  }

  lemma UserDestination(plan: Plan, d: Path)
    requires StagesFeedFinals(plan) && (d in Destinations(plan.direct) || d in Destinations(plan.finals))
    ensures exists k :: 0 <= k < |UserMoves(plan)| && UserMoves(plan)[k].destination == d
  {
    TakingByPart(plan);
    if d in Destinations(plan.direct) {
      var k :| 0 <= k < |plan.direct| && plan.direct[k].destination == d;
      assert UserMoves(plan)[k].destination == d;
    } else {
      var k :| 0 <= k < |plan.finals| && plan.finals[k].destination == d;
      assert UserMoves(plan)[|plan.direct| + k].destination == d;
    }
  }

  lemma DirectoryServes(t: Tree, plan: Plan, m: nat) returns (d: Path)
    requires Planned(t, plan) && m < |plan.directories|
    ensures IsDestination(plan, d) && Above(plan.directories[m], d)
  {
    assert plan.directories[m] != [];
    d :| IsDestination(plan, d) && Above(plan.directories[m], d);
  }

  /** Creating the missing directories occupies no user destination and no staging place. */
  lemma PlacesStayFree(t: Tree, plan: Plan, t1: Tree)
    requires Planned(t, plan) && NoneAbove(plan) && Created(t, plan.directories, t1)
    ensures forall k | 0 <= k < |UserMoves(plan)| :: UserMoves(plan)[k].destination in t1 ==> UserMoves(plan)[k].destination in t
    ensures forall k | 0 <= k < |plan.stages| :: plan.stages[k].destination !in t1
  {
    forall k | 0 <= k < |UserMoves(plan)| && UserMoves(plan)[k].destination !in t
      ensures UserMoves(plan)[k].destination !in plan.directories
    {
      forall m | 0 <= m < |plan.directories| ensures plan.directories[m] != UserMoves(plan)[k].destination {
        var d := DirectoryServes(t, plan, m);
        IsUserDestination(plan, k);
      }
    }
    forall k | 0 <= k < |plan.stages| ensures plan.stages[k].destination !in plan.directories {
      forall m | 0 <= m < |plan.directories| ensures plan.directories[m] != plan.stages[k].destination {
        var d := DirectoryServes(t, plan, m);
        StagingNotAboveDestinations(t, plan, k, d);
      }
    }
    assert forall k | 0 <= k < |plan.stages| :: StagingPlace(t, plan.stages[k].destination);
  }

  /** Moves leave directories where they are. */
  lemma DirectoriesStay(t: Tree, moves: seq<Step>, u: Tree)
    requires MovesReady(t, moves) && Moved(t, moves, u)
    ensures forall p | IsDirectory(t, p) :: IsDirectory(u, p)
  {
    forall p | IsDirectory(t, p) ensures IsDirectory(u, p) {
      forall k | 0 <= k < |moves| ensures moves[k].destination != p {
        if moves[k].destination in t {
          var j :| 0 <= j < k && moves[j].source == moves[k].destination;
        }
      }
    }
  }

  lemma DirectIsReady(t: Tree, plan: Plan, t1: Tree)
    requires Planned(t, plan) && NoneAbove(plan) && Created(t, plan.directories, t1)
    ensures MovesReady(t1, plan.direct)
  {
    TakingByPart(plan);
    PlacesStayFree(t, plan, t1);
    forall i, j | 0 <= i < j < |plan.direct|
      ensures plan.direct[i].source != plan.direct[j].source && plan.direct[i].destination != plan.direct[j].destination
    {
      DistinctAt(Taking(plan), i, j);
      assert UserMoves(plan)[i].destination != UserMoves(plan)[j].destination;
    }
    forall k | 0 <= k < |plan.direct|
      ensures plan.direct[k].source in t1 && t1[plan.direct[k].source] == File(plan.direct[k].expected)
      ensures plan.direct[k].destination != [] && ParentReady(t1, plan.direct[k].destination)
      ensures plan.direct[k].destination in t1 ==> plan.direct[k].destination in t
    {
      assert Taking(plan)[k] == plan.direct[k] == UserMoves(plan)[k];
      ParentIsThere(t, plan, t1, plan.direct[k].destination);
    }
  }

  /** The stages find their sources untouched by the direct moves and their places free. */
  lemma StagesAreReady(t: Tree, plan: Plan, t1: Tree, t2: Tree)
    requires Planned(t, plan) && NoneAbove(plan) && Created(t, plan.directories, t1)
    requires Moved(t1, plan.direct, t2)
    ensures MovesReady(t2, plan.stages)
  {
    DirectIsReady(t, plan, t1);
    DirectoriesStay(t1, plan.direct, t2);
    PlacesStayFree(t, plan, t1);
    forall k | 0 <= k < |plan.stages|
      ensures plan.stages[k].source in t2 && t2[plan.stages[k].source] == File(plan.stages[k].expected)
      ensures plan.stages[k].destination != [] && plan.stages[k].destination !in t2
      ensures ParentReady(t2, plan.stages[k].destination)
    {
      StageIsReady(t, plan, t1, t2, k);
    }
    forall i, j | 0 <= i < j < |plan.stages|
      ensures plan.stages[i].source != plan.stages[j].source && plan.stages[i].destination != plan.stages[j].destination
    {
      StagesAreApart(t, plan, i, j);
    }
  }

  lemma StageIsReady(t: Tree, plan: Plan, t1: Tree, t2: Tree, k: nat)
    requires Planned(t, plan) && Created(t, plan.directories, t1) && Moved(t1, plan.direct, t2)
    requires k < |plan.stages| && plan.stages[k].destination !in t1
    requires forall p | IsDirectory(t1, p) :: IsDirectory(t2, p)
    ensures plan.stages[k].source in t2 && t2[plan.stages[k].source] == File(plan.stages[k].expected)
    ensures plan.stages[k].destination != [] && plan.stages[k].destination !in t2
    ensures ParentReady(t2, plan.stages[k].destination)
  {
    var c, stage := |plan.direct|, plan.stages[k];
    TakingByPart(plan);
    assert Taking(plan)[c + k] == stage;
    assert stage.source in t && t[stage.source] == File(stage.expected);
    assert StagingPlace(t, stage.destination);
    forall j | 0 <= j < c
      ensures plan.direct[j].source != stage.source && plan.direct[j].destination != stage.source
      ensures plan.direct[j].destination != stage.destination
    {
      DistinctAt(Taking(plan), j, c + k);
      DestinationsAreNotTakenLater(t, plan, j, c + k);
      StagingIsNoUserDestination(t, plan, k, j);
    }
    assert IsDestination(plan, stage.destination);
    ParentIsThere(t, plan, t1, stage.destination);
  }

  lemma FinalPlaceIsItsOwn(t: Tree, plan: Plan, k: nat)
    requires MovesPlanned(t, plan) && k < |plan.finals|
    ensures plan.finals[k].destination !in Destinations(plan.direct)
    ensures plan.finals[k].destination !in Destinations(plan.stages)
  {
    var c, d := |plan.direct|, plan.finals[k].destination;
    TakingByPart(plan);
    forall j | 0 <= j < c ensures plan.direct[j].destination != d {
      assert UserMoves(plan)[j].destination != UserMoves(plan)[c + k].destination;
    }
    forall j | 0 <= j < |plan.stages| ensures plan.stages[j].destination != d {
      StagesAreApart(t, plan, k, j);
    }
  }

  lemma FinalPlaceIsVacated(t: Tree, plan: Plan, t1: Tree, t2: Tree, t3: Tree, k: nat)
    requires MovesPlanned(t, plan) && k < |plan.finals|
    requires plan.finals[k].destination in t1 ==> plan.finals[k].destination in t
    requires Moved(t1, plan.direct, t2) && Moved(t2, plan.stages, t3)
    ensures plan.finals[k].destination !in t3
  {
    FinalPlaceIsItsOwn(t, plan, k);
    PartsOfThePlan(plan);
  }

  /** The final moves find their files in staging and every destination vacated. */
  lemma FinalIsReady(t: Tree, plan: Plan, t1: Tree, t2: Tree, t3: Tree, k: nat)
    requires Planned(t, plan) && NoneAbove(plan) && Created(t, plan.directories, t1)
    requires Moved(t1, plan.direct, t2) && Moved(t2, plan.stages, t3) && k < |plan.finals|
    requires forall p | IsDirectory(t1, p) :: IsDirectory(t3, p)
    ensures plan.finals[k].source in t3 && t3[plan.finals[k].source] == File(plan.finals[k].expected)
    ensures plan.finals[k].destination != [] && plan.finals[k].destination !in t3
    ensures ParentReady(t3, plan.finals[k].destination)
  {
    assert UserMoves(plan)[|plan.direct| + k] == plan.finals[k];
    assert plan.stages[k].destination in t3;
    PlacesStayFree(t, plan, t1);
    FinalPlaceIsVacated(t, plan, t1, t2, t3, k);
    assert IsDestination(plan, plan.finals[k].destination);
    ParentIsThere(t, plan, t1, plan.finals[k].destination);
  }

  lemma FinalsAreReady(t: Tree, plan: Plan, t1: Tree, t2: Tree, t3: Tree)
    requires Planned(t, plan) && NoneAbove(plan) && Created(t, plan.directories, t1)
    requires Moved(t1, plan.direct, t2) && Moved(t2, plan.stages, t3)
    ensures MovesReady(t3, plan.finals)
  {
    StagesAreReady(t, plan, t1, t2);
    DirectIsReady(t, plan, t1);
    DirectoriesStay(t1, plan.direct, t2);
    DirectoriesStay(t2, plan.stages, t3);
    forall k | 0 <= k < |plan.finals|
      ensures plan.finals[k].source in t3 && t3[plan.finals[k].source] == File(plan.finals[k].expected)
      ensures plan.finals[k].destination != [] && plan.finals[k].destination !in t3
      ensures ParentReady(t3, plan.finals[k].destination)
    {
      FinalIsReady(t, plan, t1, t2, t3, k);
    }
    forall i, j | 0 <= i < j < |plan.finals|
      ensures plan.finals[i].source != plan.finals[j].source && plan.finals[i].destination != plan.finals[j].destination
    {
      StagesAreApart(t, plan, i, j);
      TakingByPart(plan);
      assert UserMoves(plan)[|plan.direct| + i].destination != UserMoves(plan)[|plan.direct| + j].destination;
    }
  }

  /** What is in the tree once every move has run, in terms of the starting tree. */
  ghost predicate AllMoved(t: Tree, plan: Plan, u: Tree)
    requires StagesFeedFinals(plan)
  {
    && (forall p :: p in u <==>
          (p in Destinations(UserMoves(plan)) || ((p in t || p in plan.directories) && p !in Sources(Taking(plan)))))
    && (forall k | 0 <= k < |UserMoves(plan)| ::
          UserMoves(plan)[k].destination in u && u[UserMoves(plan)[k].destination] == File(UserMoves(plan)[k].expected))
    && (forall p | p in u && p !in Destinations(UserMoves(plan)) :: u[p] == if p in t then t[p] else Directory)
  }

  lemma DirectPlacesAreKept(t: Tree, plan: Plan)
    requires MovesPlanned(t, plan)
    ensures Destinations(plan.direct) !! Sources(plan.stages)
  {
    forall i, j | 0 <= i < |plan.direct| && 0 <= j < |plan.stages|
      ensures plan.direct[i].destination != plan.stages[j].source
    {
      TakingByPart(plan);
      DestinationsAreNotTakenLater(t, plan, i, |plan.direct| + j);
    }
  }

  lemma StagesThenFinals(t: Tree, plan: Plan, t1: Tree, t2: Tree, t3: Tree, u: Tree)
    requires MovesPlanned(t, plan) && Created(t, plan.directories, t1) && Moved(t1, plan.direct, t2)
    requires Moved(t2, plan.stages, t3) && Moved(t3, plan.finals, u)
    requires MovesReady(t2, plan.stages)
    requires forall k | 0 <= k < |plan.stages| :: plan.stages[k].destination !in t2
    ensures AllMoved(t, plan, u)
  {
    PartsOfThePlan(plan);
    DirectPlacesAreKept(t, plan);
    StagingIsLeft(t, plan, t2);
    forall k | 0 <= k < |UserMoves(plan)|
      ensures UserMoves(plan)[k].destination in u && u[UserMoves(plan)[k].destination] == File(UserMoves(plan)[k].expected)
    {
      DestinationIsFilled(t, plan, t2, t3, u, k);
    }
  }

  lemma StagingIsLeft(t: Tree, plan: Plan, t2: Tree)
    requires MovesPlanned(t, plan)
    requires forall k | 0 <= k < |plan.stages| :: plan.stages[k].destination !in t2
    ensures forall p | p in Sources(plan.finals) :: p !in t2 && p !in Destinations(plan.finals)
  {
    forall p | p in Sources(plan.finals) ensures p !in t2 && p !in Destinations(plan.finals) {
      var k :| 0 <= k < |plan.finals| && plan.finals[k].source == p;
      forall j | 0 <= j < |plan.finals| ensures plan.finals[j].destination != p {
        StagesAreApart(t, plan, j, k);
      }
    }
  }

  lemma DestinationIsFilled(t: Tree, plan: Plan, t2: Tree, t3: Tree, u: Tree, k: nat)
    requires MovesPlanned(t, plan) && k < |UserMoves(plan)|
    requires forall j | 0 <= j < |plan.direct| ::
               plan.direct[j].destination in t2 && t2[plan.direct[j].destination] == File(plan.direct[j].expected)
    requires Moved(t2, plan.stages, t3) && Moved(t3, plan.finals, u)
    ensures UserMoves(plan)[k].destination in u && u[UserMoves(plan)[k].destination] == File(UserMoves(plan)[k].expected)
  {
    TakingByPart(plan);
    if k < |plan.direct| {
      var d := plan.direct[k].destination;
      DirectPlacesAreKept(t, plan);
      assert d in Destinations(plan.direct);
      forall j | 0 <= j < |plan.finals|
        ensures plan.finals[j].destination != d && plan.finals[j].source != d
      {
        assert UserMoves(plan)[k].destination != UserMoves(plan)[|plan.direct| + j].destination;
        StagingIsNoUserDestination(t, plan, j, k);
      }
      assert d in t3 && t3[d] == t2[d] by {
        PartsOfThePlan(plan);
      }
    } else {
      assert UserMoves(plan)[k] == plan.finals[k - |plan.direct|];
    }
  }

  lemma FrontRuns(t: Tree, plan: Plan)
    requires Planned(t, plan) && NoneAbove(plan)
    ensures Replay(Front(plan), t).Some? && AllMoved(t, plan, Replay(Front(plan), t).value)
  {
    DirectoriesAreReady(t, plan);
    CreatesRun(t, plan.directories);
    var t1 := Replay(Creates(plan.directories), t).value;
    ReplayKeepsWellFormed(Creates(plan.directories), t);
    DirectIsReady(t, plan, t1);
    MovesRun(t1, plan.direct);
    var t2 := Replay(plan.direct, t1).value;
    ReplayKeepsWellFormed(plan.direct, t1);
    StagesAreReady(t, plan, t1, t2);
    MovesRun(t2, plan.stages);
    var t3 := Replay(plan.stages, t2).value;
    ReplayKeepsWellFormed(plan.stages, t2);
    FinalsAreReady(t, plan, t1, t2, t3);
    MovesRun(t3, plan.finals);
    var u := Replay(plan.finals, t3).value;
    ReplayConcat(plan.stages, plan.finals, t2);
    ReplayConcat(plan.direct, plan.stages + plan.finals, t1);
    ReplayConcat(Creates(plan.directories), plan.direct + (plan.stages + plan.finals), t);
    StagePlacesWereFree(t, plan, t1, t2);
    StagesThenFinals(t, plan, t1, t2, t3, u);
  }

  lemma StagePlacesWereFree(t: Tree, plan: Plan, t1: Tree, t2: Tree)
    requires Planned(t, plan) && NoneAbove(plan) && Created(t, plan.directories, t1) && Moved(t1, plan.direct, t2)
    ensures forall k | 0 <= k < |plan.stages| :: plan.stages[k].destination !in t2
  {
    DirectIsReady(t, plan, t1);
    DirectoriesStay(t1, plan.direct, t2);
    PlacesStayFree(t, plan, t1);
    forall k | 0 <= k < |plan.stages| ensures plan.stages[k].destination !in t2 {
      StageIsReady(t, plan, t1, t2, k);
    }
  }

  lemma SourcesAreFiles(t: Tree, plan: Plan, p: Path)
    requires MovesPlanned(t, plan) && p in Sources(Taking(plan))
    ensures HasFile(t, p)
  {
    var i :| 0 <= i < |Taking(plan)| && Taking(plan)[i].source == p;
    assert t[Taking(plan)[i].source] == File(Taking(plan)[i].expected);
  }

  lemma RemovalsRemain(t: Tree, plan: Plan, u: Tree, r: Path)
    requires Planned(t, plan) && NoneUnderRemoved(plan) && AllMoved(t, plan, u) && r in plan.removals
    ensures IsDirectory(u, r)
  {
    assert AtOrUnder(r, r);
    NothingPlacedUnderRemoved(t, plan, r, r);
    if r in Sources(Taking(plan)) {
      SourcesAreFiles(t, plan, r);
    }
  }

  lemma ChildGoesFirst(t: Tree, plan: Plan, u: Tree, k: nat, q: Path)
    requires Planned(t, plan) && NoneUnderRemoved(plan) && AllMoved(t, plan, u)
    requires k < |plan.removals| && q in u && q != [] && Parent(q) == plan.removals[k]
    ensures q in plan.removals[..k]
  {
    assert AtOrUnder(q, plan.removals[k]);
    NothingPlacedUnderRemoved(t, plan, plan.removals[k], q);
    var m :| 0 <= m < |plan.removals| && plan.removals[m] == q;
    assert m < k;
    assert plan.removals[..k][m] == q;
  }

  lemma RemovalsAreReady(t: Tree, plan: Plan, u: Tree)
    requires Planned(t, plan) && NoneUnderRemoved(plan) && AllMoved(t, plan, u)
    ensures RemovesReady(u, plan.removals)
  {
    forall k | 0 <= k < |plan.removals| ensures IsDirectory(u, plan.removals[k]) {
      RemovalsRemain(t, plan, u, plan.removals[k]);
    }
    forall k, q | 0 <= k < |plan.removals| && q in u && q != [] && Parent(q) == plan.removals[k]
      ensures q in plan.removals[..k]
    {
      ChildGoesFirst(t, plan, u, k, q);
    }
  }

  lemma NothingPlacedUnderRemoved(t: Tree, plan: Plan, r: Path, q: Path)
    requires Planned(t, plan) && NoneUnderRemoved(plan) && r in plan.removals && AtOrUnder(q, r)
    ensures q !in Destinations(UserMoves(plan)) && q !in plan.directories
  {
    forall i | 0 <= i < |UserMoves(plan)| ensures UserMoves(plan)[i].destination != q {
    }
    forall m | 0 <= m < |plan.directories| ensures plan.directories[m] != q {
      var d :| IsDestination(plan, d) && Above(plan.directories[m], d);
      if plan.directories[m] == q {
        AtOrUnderTransitive(d, q, r);
        assert d[0] == r[0];
      }
      if d in Destinations(plan.stages) {
        var j :| 0 <= j < |plan.stages| && plan.stages[j].destination == d;
        assert StagingPlace(t, plan.stages[j].destination);
      } else {
        UserDestination(plan, d);
      }
    }
  }

  lemma RemovalsFinish(t: Tree, plan: Plan, u: Tree)
    requires StagesFeedFinals(plan) && NoneUnderRemoved(plan) && AllMoved(t, plan, u)
    ensures Finished(t, plan, u - (set p | p in plan.removals))
  {
    forall k | 0 <= k < |UserMoves(plan)| ensures UserMoves(plan)[k].destination !in plan.removals {
      var d := UserMoves(plan)[k].destination;
      assert AtOrUnder(d, d);
    }
  }

  /** A plan without such destinations completes, and this is the tree it leaves. */
  lemma PlanCompletes(t: Tree, plan: Plan)
    requires Planned(t, plan) && NoneAbove(plan) && NoneUnderRemoved(plan)
    ensures Replay(Steps(plan), t).Some? && Finished(t, plan, Replay(Steps(plan), t).value)
  {
    FrontRuns(t, plan);
    var u := Replay(Front(plan), t).value;
    RemovalsAreReady(t, plan, u);
    RemovesRun(u, plan.removals);
    ReplayConcat(Front(plan), Removes(plan.removals), t);
    RemovalsFinish(t, plan, u);
  }

  // ---- and only then

  lemma DestinationsHoldFiles(t: Tree, plan: Plan, k: nat)
    requires Planned(t, plan) && k < |UserMoves(plan)|
    requires Replay(Steps(plan), t).Some?
    ensures HasFile(Replay(Steps(plan), t).value, UserMoves(plan)[k].destination)
  {
    ReplayKeepsFiles(Steps(plan), t);
    PlannedFilesArrive(t, plan, k);
    assert Taking(plan)[k].source in t;
    assert HasFile(t, Origin(plan, k));
  }

  lemma StagedThrough(t: Tree, plan: Plan, i: nat, p: Path)
    requires Planned(t, plan) && i < |plan.stages| && Replay(Steps(plan), t).Some?
    requires p != [] && Above(p, plan.stages[i].destination)
    ensures IsDirectory(Replay(Steps(plan), t).value, p)
  {
    var k := |plan.directories| + |plan.direct| + i;
    StageInSteps(plan, i);
    StagingStays(t, plan, i, p);
    forall j | k < j < |Steps(plan)| ensures Steps(plan)[j] != RemoveDirectoryIfEmpty(p) {
      StepAfterMoves(plan, j);
    }
    DirectoryStays(Steps(plan), k, t, p);
  }

  lemma StagingStays(t: Tree, plan: Plan, i: nat, p: Path)
    requires Planned(t, plan) && i < |plan.stages| && p != [] && Above(p, plan.stages[i].destination)
    ensures p !in plan.removals
  {
    assert StagingPlace(t, plan.stages[i].destination);
  }

  lemma StageInSteps(plan: Plan, i: nat)
    requires i < |plan.stages|
    ensures |plan.directories| + |plan.direct| + i < |Steps(plan)|
    ensures Steps(plan)[|plan.directories| + |plan.direct| + i] == plan.stages[i]
  {
    var creates := Creates(plan.directories);
    assert (plan.stages + plan.finals)[i] == plan.stages[i];
    assert (plan.direct + (plan.stages + plan.finals))[|plan.direct| + i] == plan.stages[i];
    assert Front(plan)[|creates| + |plan.direct| + i] == plan.stages[i];
  }

  lemma StepAfterMoves(plan: Plan, j: nat)
    requires StagesFeedFinals(plan) && |plan.directories| <= j < |Steps(plan)|
    ensures Steps(plan)[j].RemoveDirectoryIfEmpty? ==> Steps(plan)[j].path in plan.removals
  {
  }

  /** The ancestors of a place that a move reached are still directories at the end. */
  lemma {:induction false} DirectoryStays(steps: seq<Step>, k: nat, t: Tree, p: Path)
    requires WellFormed(t) && Replay(steps, t).Some? && k < |steps|
    requires steps[k].Move? && p != [] && Above(p, steps[k].destination)
    requires forall j | k < j < |steps| :: steps[j] != RemoveDirectoryIfEmpty(p)
    ensures IsDirectory(Replay(steps, t).value, p)
  {
    var u := Apply(steps[0], t).value;
    ApplyKeepsWellFormed(steps[0], t);
    if k > 0 {
      DirectoryStays(steps[1..], k - 1, u, p);
    } else {
      AncestorsOfReadyPlace(t, steps[0].destination);
      OnlyRemovalRemoves(steps[1..], u, p);
    }
  }

  lemma {:induction false} OnlyRemovalRemoves(steps: seq<Step>, t: Tree, p: Path)
    requires Replay(steps, t).Some? && IsDirectory(t, p)
    requires forall j | 0 <= j < |steps| :: steps[j] != RemoveDirectoryIfEmpty(p)
    ensures IsDirectory(Replay(steps, t).value, p)
  {
    if steps != [] {
      OnlyRemovalRemoves(steps[1..], Apply(steps[0], t).value, p);
    }
  }

  lemma FilesAreNotAncestors(u: Tree, upper: Path, lower: Path)
    requires WellFormed(u) && HasFile(u, upper) && HasFile(u, lower)
    ensures !Above(upper, lower)
  {
    if Above(upper, lower) {
      AncestorsAreDirectories(u, lower, |upper|);
    }
  }

  lemma PresentIsNotUnderAbsent(u: Tree, p: Path, r: Path)
    requires WellFormed(u) && p in u && r !in u && r != []
    ensures !AtOrUnder(p, r)
  {
    if AtOrUnder(p, r) && |r| < |p| {
      AncestorsAreDirectories(u, p, |r|);
    }
    assert AtOrUnder(p, r) && |r| == |p| ==> r == p;
  }

  /** What a completed run removed is absent at its end. */
  lemma RemovedAtTheEnd(t: Tree, plan: Plan, r: Path)
    requires Replay(Steps(plan), t).Some? && r in plan.removals
    ensures r !in Replay(Steps(plan), t).value
  {
    ReplayConcat(Front(plan), Removes(plan.removals), t);
    RemovedIsGone(Replay(Front(plan), t).value, plan.removals, r);
  }

  /** A completed plan had no destination above another: the upper one would have to be a
      file and a directory at once. Nor had it one under a removed directory. */
  lemma CompletedOnlyWhenClear(t: Tree, plan: Plan)
    requires Planned(t, plan) && Replay(Steps(plan), t).Some?
    ensures NoneAbove(plan) && NoneUnderRemoved(plan)
  {
    var u := Replay(Steps(plan), t).value;
    ReplayKeepsWellFormed(Steps(plan), t);
    forall d, e | IsDestination(plan, d) && IsDestination(plan, e) ensures !Above(d, e) {
      NotAboveWhenCompleted(t, plan, d, e);
    }
    forall i, r | 0 <= i < |UserMoves(plan)| && r in plan.removals
      ensures !AtOrUnder(UserMoves(plan)[i].destination, r)
    {
      DestinationsHoldFiles(t, plan, i);
      RemovedAtTheEnd(t, plan, r);
      PresentIsNotUnderAbsent(u, UserMoves(plan)[i].destination, r);
    }
  }

  lemma NotAboveWhenCompleted(t: Tree, plan: Plan, d: Path, e: Path)
    requires Planned(t, plan) && Replay(Steps(plan), t).Some?
    requires IsDestination(plan, d) && IsDestination(plan, e)
    ensures !Above(d, e)
  {
    var u := Replay(Steps(plan), t).value;
    ReplayKeepsWellFormed(Steps(plan), t);
    if d in Destinations(plan.stages) {
      var i :| 0 <= i < |plan.stages| && plan.stages[i].destination == d;
      StagingNotAboveDestinations(t, plan, i, e);
    } else {
      UserDestination(plan, d);
      var k :| 0 <= k < |UserMoves(plan)| && UserMoves(plan)[k].destination == d;
      DestinationsHoldFiles(t, plan, k);
      if e in Destinations(plan.stages) {
        var i :| 0 <= i < |plan.stages| && plan.stages[i].destination == e;
        if Above(d, e) {
          StagedThrough(t, plan, i, d);
        }
      } else {
        UserDestination(plan, e);
        var m :| 0 <= m < |UserMoves(plan)| && UserMoves(plan)[m].destination == e;
        DestinationsHoldFiles(t, plan, m);
        FilesAreNotAncestors(u, d, e);
      }
    }
  }

  /** For every plan that the planner can produce, the run completes exactly when no
      destination is above another one or at or under a removed directory. */
  lemma CompletesExactlyWhenClear(t: Tree, plan: Plan)
    requires Planned(t, plan)
    ensures Replay(Steps(plan), t).Some? <==> NoneAbove(plan) && NoneUnderRemoved(plan)
    ensures Replay(Steps(plan), t).Some? ==> Finished(t, plan, Replay(Steps(plan), t).value)
  {
    if Replay(Steps(plan), t).Some? {
      CompletedOnlyWhenClear(t, plan);
    }
    if NoneAbove(plan) && NoneUnderRemoved(plan) {
      PlanCompletes(t, plan);
    }
  }

  /** Nothing of a removed tree is left behind. */
  lemma RemovedTreesAreGone(t: Tree, plan: Plan, r: Path, p: Path)
    requires Planned(t, plan) && Replay(Steps(plan), t).Some?
    requires r in plan.removals && AtOrUnder(p, r)
    ensures p !in Replay(Steps(plan), t).value
  {
    var u := Replay(Steps(plan), t).value;
    ReplayKeepsWellFormed(Steps(plan), t);
    RemovedAtTheEnd(t, plan, r);
    if p in u {
      PresentIsNotUnderAbsent(u, p, r);
    }
  }

  /** Undoing a completed plan from its last step to its first gives the starting tree. */
  lemma CompletedPlanUndone(t: Tree, plan: Plan)
    requires Planned(t, plan) && NoneAbove(plan) && NoneUnderRemoved(plan)
    ensures Replay(Steps(plan), t).Some? && Unwind(Steps(plan), Replay(Steps(plan), t).value) == Some(t)
  {
    PlanCompletes(t, plan);
    UnwindRestores(Steps(plan), t);
  }
}
